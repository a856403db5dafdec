/** Shared-equity replay over many symbol lanes (replay/portfolio.py), as functions on values. */
module Portfolio {
  import opened Numbers
  import opened Domain
  import opened EngineTypes
  import opened Mechanics
  import opened OptionLedger
  import opened Sorting

  // ---------------------------------------------------------------- data

  /** What a lane replays; both series are in timestamp order. */
  datatype LaneData = LaneData(symbol: Symbol, intraday: seq<Bar>, daily: seq<Bar>)

  /** A lane's progress: the last completed bar, and at most one order or position. */
  datatype Lane = Lane(cursor: int, order: Option<Order>, position: Option<Position>)
  {
    predicate Busy() {
      order.Some? || position.Some?
    }
  }

  /** One order placed by a strategy on a symbol, for a signal of a given day. */
  datatype Attempt = Attempt(strategy: Strategy, symbol: Symbol, day: Day)

  /** What the lanes share. `fills` and `placed` record history; `raised` that an exception ended the run. */
  datatype Book = Book(
    equity: real,
    trades: seq<Trade>,
    traded: map<Strategy, set<(Symbol, Day)>>,
    fills: seq<Fill>,
    placed: seq<Attempt>,
    raised: bool)
  {
    function Traded(strategy: Strategy): set<(Symbol, Day)> {
      if strategy in traded then traded[strategy] else {}
    }

    function Block(strategy: Strategy, symbol: Symbol, day: Day): Book {
      this.(traded := traded[strategy := Traded(strategy) + {(symbol, day)}])
    }
  }

  datatype State = State(lanes: seq<Lane>, book: Book)

  /** One strategy of the sequence: its share of equity and its engine cycle. */
  datatype Slot = Slot(name: Strategy, equityScale: real, decide: CycleInput -> Result<seq<Intent>>)

  datatype World = World(
    settings: Settings,
    calendar: Calendar,
    lanes: seq<LaneData>,
    regimeDaily: seq<Bar>,
    vixDaily: seq<Bar>,
    sectorDaily: seq<seq<Bar>>,
    marketContext: (seq<Bar>, seq<seq<Bar>>) -> MarketContext,
    ledger: Option<seq<Snapshot>>,
    slots: seq<Slot>,
    defaultStrategy: Strategy,
    startingEquity: real)

  predicate Fits(w: World, lanes: seq<Lane>) {
    && |lanes| == |w.lanes|
    && forall i :: 0 <= i < |lanes| ==> -1 <= lanes[i].cursor < |w.lanes[i].intraday|
  }

  function CloseTime(w: World, bar: Bar): int {
    bar.timestamp + w.settings.timeframe
  }

  // ---------------------------------------------------------------- timeline

  /** Insertion into a strictly increasing list. */
  function InsertStamp(stamps: seq<int>, t: int): (r: seq<int>)
    requires forall i, j :: 0 <= i < j < |stamps| ==> stamps[i] < stamps[j]
    ensures forall i, j :: 0 <= i < j < |r| ==> r[i] < r[j]
    ensures forall x :: x in r <==> x in stamps || x == t
  {
    if stamps == [] || stamps[|stamps| - 1] < t then stamps + [t]
    else if stamps[|stamps| - 1] == t then stamps
    else
      var n := |stamps| - 1;
      var rest := InsertStamp(stamps[..n], t);
      assert stamps == stamps[..n] + [stamps[n]];
      assert forall i :: 0 <= i < |rest| ==> rest[i] in rest;
      rest + [stamps[n]]
  }

  /** The times in increasing order, each once. */
  function SortedSet(times: seq<int>): (r: seq<int>)
    ensures forall i, j :: 0 <= i < j < |r| ==> r[i] < r[j]
    ensures forall x :: x in r <==> x in times
  {
    if times == [] then []
    else
      assert times == times[..|times| - 1] + [times[|times| - 1]];
      InsertStamp(SortedSet(times[..|times| - 1]), times[|times| - 1])
  }

  function CloseTimes(w: World, bars: seq<Bar>): (r: seq<int>)
    ensures |r| == |bars| && forall i :: 0 <= i < |r| ==> r[i] == CloseTime(w, bars[i])
  {
    seq(|bars|, i requires 0 <= i < |bars| => CloseTime(w, bars[i]))
  }

  function AllTimes(w: World, n: nat): seq<int>
    requires n <= |w.lanes|
  {
    if n == 0 then [] else AllTimes(w, n - 1) + CloseTimes(w, w.lanes[n - 1].intraday)
  }

  /** Every lane's bar close times, merged. */
  function Timeline(w: World): seq<int> {
    SortedSet(AllTimes(w, |w.lanes|))
  }

  predicate IsFresh(w: World, data: LaneData, lane: Lane, now: int) {
    0 <= lane.cursor + 1 < |data.intraday| && CloseTime(w, data.intraday[lane.cursor + 1]) == now
  }

  /** Which lanes have a bar closing now. */
  function FreshLanes(w: World, lanes: seq<Lane>, now: int): (r: seq<bool>)
    requires Fits(w, lanes)
    ensures |r| == |lanes| && forall i :: 0 <= i < |r| ==> r[i] == IsFresh(w, w.lanes[i], lanes[i], now)
  {
    seq(|lanes|, i requires 0 <= i < |lanes| => IsFresh(w, w.lanes[i], lanes[i], now))
  }

  /** The lanes after moving each fresh one to its next bar. */
  function Advance(w: World, lanes: seq<Lane>, now: int): (r: seq<Lane>)
    requires Fits(w, lanes)
    ensures Fits(w, r)
    ensures forall i :: 0 <= i < |r| ==>
      r[i] == if IsFresh(w, w.lanes[i], lanes[i], now) then lanes[i].(cursor := lanes[i].cursor + 1) else lanes[i]
  {
    seq(|lanes|, i requires 0 <= i < |lanes| =>
      if IsFresh(w, w.lanes[i], lanes[i], now) then lanes[i].(cursor := lanes[i].cursor + 1) else lanes[i])
  }

  // ---------------------------------------------------------------- fills and exits of one lane

  datatype Outcome = Outcome(lane: Lane, book: Book)

  function QuoteAt(w: World, occSymbol: Option<Symbol>, asOf: int): Option<Contract> {
    if w.ledger.None? || occSymbol.None? || occSymbol.value == "" then None
    else ContractAt(w.ledger.value, occSymbol.value, asOf)
  }

  /** Give up on the working order and block its symbol for the signal's day. */
  function Expire(w: World, lane: Lane, book: Book): Outcome
    requires lane.order.Some?
  {
    var order := lane.order.value;
    Outcome(lane.(order := None), book.Block(order.strategy, order.symbol, w.calendar.day(order.signalTimestamp)))
  }

  /** The price at which the working order fills on a bar, if it does. */
  function FillPrice(w: World, order: Order, bar: Bar): Option<real> {
    var bps := w.settings.slippageBps;
    if order.optionSymbol.Some? then
      var quote := QuoteAt(w, order.optionSymbol, CloseTime(w, bar));
      if quote.None? || quote.value.ask <= 0.0 || order.limitPrice <= 0.0 || quote.value.ask > order.limitPrice
      then None
      else Some(EntryFillPrice(quote.value.ask, order.limitPrice, bps))
    else
      var raw := BuyStopLimitFill(bar, order.stopPrice, order.limitPrice);
      if raw.None? then None else Some(EntryFillPrice(raw.value, order.limitPrice, bps))
  }

  function Filled(order: Order, bar: Bar, price: real): Position {
    var stop := if order.optionSymbol.Some? then 0.0 else order.initialStopPrice;
    Position(order.symbol, bar.timestamp, price, order.quantity, stop, stop, false, price, 0.0, order.strategy,
      order.optionSymbol)
  }

  /** _resolve_order: wait, expire or fill. */
  function ResolveOrder(w: World, bar: Bar, lane: Lane, book: Book): Outcome {
    if lane.order.None? || bar.timestamp < lane.order.value.activeTimestamp then Outcome(lane, book)
    else
      var order := lane.order.value;
      if bar.timestamp > order.lastActiveTimestamp then Expire(w, lane, book)
      else
        var price := FillPrice(w, order, bar);
        if price.None? then
          if bar.timestamp >= order.lastActiveTimestamp then Expire(w, lane, book) else Outcome(lane, book)
        else if order.optionSymbol.Some? && order.quantity <= 0.0 then Outcome(lane.(order := None), book)
        else
          var filled := Filled(order, bar, price.value);
          Outcome(lane.(order := None, position := Some(filled)), book.(fills := book.fills + [filled.AsFill()]))
  }

  /** The result a trade record states; one option contract covers a hundred shares. */
  function RecordedPnl(p: Position, price: real): real {
    var multiplier := if p.optionSymbol.Some? then 100.0 else 1.0;
    (price - p.entryPrice) * p.quantity * multiplier
  }

  /** A closed position's trade record. */
  function Record(p: Position, exitTime: int, price: real, reason: string): Trade {
    Trade(p.RecordedSymbol(), p.entryPrice, price, p.quantity, p.entryTimestamp, exitTime, reason,
          RecordedPnl(p, price), p.strategy)
  }

  /**
   * Close the lane's position at a price: the exit's own step of equity, a record, and a block on the exit day.
   * A zero entry price raises.
   */
  function Close(
    w: World, bar: Bar, lane: Lane, book: Book, blocks: Strategy, price: real, gain: real, reason: string): Outcome
    requires lane.position.Some?
  {
    var p := lane.position.value;
    var t := Record(p, bar.timestamp, price, reason);
    Outcome(lane.(position := None),
            book.(equity := book.equity + gain,
                  trades := book.trades + [t],
                  raised := book.raised || p.entryPrice == 0.0)
                .Block(blocks, p.symbol, w.calendar.day(bar.timestamp)))
  }

  /** _resolve_exits: the stop first, then the profit target; options are left to the engine. */
  function ResolveExits(w: World, bar: Bar, lane: Lane, book: Book): Outcome {
    if lane.position.None? || lane.position.value.optionSymbol.Some? then Outcome(lane, book)
    else
      var p := lane.position.value.(highestPrice := Max(lane.position.value.highestPrice, bar.high));
      var marked := lane.(position := Some(p));
      var target := ProfitTargetPrice(p, w.settings.profitTargetR);
      if bar.low <= p.stopPrice then
        var price := StopExitPrice(bar, p, w.settings.slippageBps);
        Close(w, bar, marked, book, p.strategy, price, p.Gain(price), "stop")
      else if w.settings.enableProfitTarget && bar.high >= target then
        var price := ApplySlippage(target, false, w.settings.slippageBps);
        Close(w, bar, marked, book, p.strategy, price, p.Gain(price), "profit_target")
      else Outcome(marked, book)
  }

  function ResolveLane(w: World, bar: Bar, lane: Lane, book: Book): Outcome {
    var o := ResolveOrder(w, bar, lane, book);
    ResolveExits(w, bar, o.lane, o.book)
  }

  /** The first n lanes resolved, fresh ones only, each against the shared book. */
  function ResolveLanes(w: World, st: State, moved: seq<bool>, n: nat): (r: State)
    requires Fits(w, st.lanes) && |moved| == |st.lanes| && n <= |moved|
    ensures |r.lanes| == |st.lanes|
    ensures forall i :: n <= i < |r.lanes| ==> r.lanes[i] == st.lanes[i]
    ensures forall i :: 0 <= i < |r.lanes| ==> r.lanes[i].cursor == st.lanes[i].cursor
  {
    if n == 0 then st
    else
      var before := ResolveLanes(w, st, moved, n - 1);
      var lane := before.lanes[n - 1];
      if !moved[n - 1] || lane.cursor < 0 then before
      else
        var o := ResolveLane(w, w.lanes[n - 1].intraday[lane.cursor], lane, before.book);
        State(before.lanes[n - 1 := o.lane], o.book)
  }

  // ---------------------------------------------------------------- what a strategy sees

  /** The longest prefix of a daily series dated before a day. */
  function DailyBefore(cal: Calendar, daily: seq<Bar>, day: Day): (r: seq<Bar>)
    ensures r <= daily
    ensures forall b :: b in r ==> cal.day(b.timestamp) < day
    ensures |r| < |daily| ==> cal.day(daily[|r|].timestamp) >= day
  {
    if daily == [] || cal.day(daily[0].timestamp) >= day then [] else [daily[0]] + DailyBefore(cal, daily[1..], day)
  }

  predicate AllPositive(daily: seq<Bar>) {
    forall b :: b in daily ==> b.close > 0.0
  }

  /** The bars a lane has completed. */
  function Completed(data: LaneData, lane: Lane): seq<Bar> {
    if 0 <= lane.cursor < |data.intraday| then data.intraday[..lane.cursor + 1] else []
  }

  /** A mapping over the lanes that have completed a bar. */
  function ByEligible<V>(data: seq<LaneData>, lanes: seq<Lane>, value: (LaneData, Lane) -> V): map<Symbol, V>
    requires |data| == |lanes|
  {
    if data == [] then map[]
    else
      var n := |data| - 1;
      var rest := ByEligible(data[..n], lanes[..n], value);
      if lanes[n].cursor >= 0 then rest[data[n].symbol := value(data[n], lanes[n])] else rest
  }

  function EligibleSymbols(data: seq<LaneData>, lanes: seq<Lane>): (r: seq<Symbol>)
    requires |data| == |lanes|
    ensures forall x :: x in r <==> exists i :: 0 <= i < |data| && lanes[i].cursor >= 0 && data[i].symbol == x
  {
    if data == [] then []
    else
      var n := |data| - 1;
      var rest := EligibleSymbols(data[..n], lanes[..n]);
      if lanes[n].cursor >= 0 then rest + [data[n].symbol] else rest
  }

  /** The open positions in lane order. */
  function Positions(lanes: seq<Lane>): (r: seq<Position>)
    ensures forall p :: p in r <==> exists i :: 0 <= i < |lanes| && lanes[i].position == Some(p)
  {
    if lanes == [] then []
    else
      var n := |lanes| - 1;
      var rest := Positions(lanes[..n]);
      if lanes[n].position.Some? then rest + [lanes[n].position.value] else rest
  }

  function OfStrategy(positions: seq<Position>, name: Strategy): (r: seq<Position>)
    ensures forall p :: p in r <==> p in positions && p.strategy == name
  {
    if positions == [] then []
    else
      var n := |positions| - 1;
      var rest := OfStrategy(positions[..n], name);
      assert positions == positions[..n] + [positions[n]];
      if positions[n].strategy == name then rest + [positions[n]] else rest
  }

  function SymbolsOf(positions: seq<Position>): (r: set<Symbol>)
    ensures forall x :: x in r <==> exists i :: 0 <= i < |positions| && positions[i].symbol == x
  {
    set i | 0 <= i < |positions| :: positions[i].symbol
  }

  function WorkingSymbols(data: seq<LaneData>, lanes: seq<Lane>): set<Symbol>
    requires |data| == |lanes|
  {
    set i | 0 <= i < |data| && lanes[i].order.Some? :: data[i].symbol
  }

  function SlicesBefore(cal: Calendar, series: seq<seq<Bar>>, day: Day): (r: seq<seq<Bar>>)
    ensures |r| == |series| && forall i :: 0 <= i < |r| ==> r[i] == DailyBefore(cal, series[i], day)
  {
    seq(|series|, i requires 0 <= i < |series| => DailyBefore(cal, series[i], day))
  }

  function Contexts(w: World, day: Day): Option<MarketContext> {
    if w.vixDaily == [] && w.sectorDaily == [] then None
    else
      Some(w.marketContext(DailyBefore(w.calendar, w.vixDaily, day), SlicesBefore(w.calendar, w.sectorDaily, day)))
  }

  /** The option chains on record when a lane's latest bar closed. */
  function ChainsSeen(w: World, data: LaneData, lane: Lane): Option<Snapshot> {
    if w.ledger.None? || !(0 <= lane.cursor < |data.intraday|) then None
    else LastVisible(w.ledger.value, CloseTime(w, data.intraday[lane.cursor]))
  }

  /** What a tick shows of the bars and option chains; the same for every strategy. */
  datatype Market = Market(
    intraday: map<Symbol, seq<Bar>>,
    daily: map<Symbol, DailySeries>,
    chains: map<Symbol, Option<Snapshot>>,
    symbols: seq<Symbol>)

  function DailySeen(w: World, lanes: seq<Lane>, today: Day): map<Symbol, DailySeries>
    requires |lanes| == |w.lanes|
  {
    ByEligible(w.lanes, lanes, (data: LaneData, lane: Lane) =>
      DailySeries(DailyBefore(w.calendar, data.daily, today), AllPositive(data.daily)))
  }

  function MarketSeen(w: World, lanes: seq<Lane>, today: Day): Market
    requires |lanes| == |w.lanes|
  {
    Market(
      ByEligible(w.lanes, lanes, Completed),
      DailySeen(w, lanes, today),
      ByEligible(w.lanes, lanes, (data: LaneData, lane: Lane) => ChainsSeen(w, data, lane)),
      SortBy(EligibleSymbols(w.lanes, lanes), Less))
  }

  /** The engine call of one strategy: its own positions, everything else that is busy, and the market. */
  function Assemble(w: World, st: State, now: int, slot: Slot, market: Market): CycleInput
    requires Fits(w, st.lanes)
  {
    var today := w.calendar.day(now);
    var open := Positions(st.lanes);
    var own := OfStrategy(open, slot.name);
    var working := WorkingSymbols(w.lanes, st.lanes);
    CycleInput(
      now,
      st.book.equity * slot.equityScale,
      market.intraday,
      market.daily,
      own,
      working + (SymbolsOf(open) - SymbolsOf(own)),
      st.book.Traded(slot.name),
      |SymbolsOf(open) + working|,
      market.symbols,
      if w.settings.enableRegime && w.regimeDaily != []
      then Some(DailyBefore(w.calendar, w.regimeDaily, today)) else None,
      if w.settings.enableVix || w.settings.enableSector then Contexts(w, today) else None,
      market.chains)
  }

  function CycleFor(w: World, st: State, now: int, slot: Slot): CycleInput
    requires Fits(w, st.lanes)
  {
    Assemble(w, st, now, slot, MarketSeen(w, st.lanes, w.calendar.day(now)))
  }

  // ---------------------------------------------------------------- routing intents

  /** The lane of a symbol; the number of lanes if there is none. */
  function LaneIndex(data: seq<LaneData>, symbol: Symbol): (k: nat)
    ensures k <= |data|
    ensures k < |data| ==> data[k].symbol == symbol
    ensures k == |data| ==> forall i :: 0 <= i < |data| ==> data[i].symbol != symbol
  {
    if data == [] || data[0].symbol == symbol then 0 else LaneIndex(data[1..], symbol) + 1
  }

  /** The latest stamp in bars first..last that is before the flatten time. */
  function LastBefore(bars: seq<Bar>, first: nat, last: nat, flattenAt: int): (r: Option<int>)
    requires first <= last < |bars|
    ensures r.Some? ==> exists k: nat :: first <= k <= last && bars[k].timestamp == r.value < flattenAt
  {
    if bars[last].timestamp < flattenAt then Some(bars[last].timestamp)
    else if last == first then None
    else LastBefore(bars, first, last - 1, flattenAt)
  }

  /** _last_entry_order_active_timestamp. */
  function LastActive(s: Settings, cal: Calendar, bars: seq<Bar>, first: nat): Option<int>
    requires first < |bars|
  {
    var bound := first + s.activeBars - 1;
    var last := if bound < |bars| - 1 then bound else |bars| - 1;
    if last < first then None
    else LastBefore(bars, first, last, cal.flattenAt(cal.day(bars[first].timestamp)))
  }

  function NewOrder(w: World, data: LaneData, first: nat, lastActive: int, intent: Intent): Order
    requires intent.Entry? && first < |data.intraday|
  {
    Order(intent.LaneSymbol(), intent.timestamp, data.intraday[first].timestamp, lastActive,
          if intent.stop.Some? then intent.stop.value else 0.0,
          intent.limit,
          if intent.initialStop.Some? then intent.initialStop.value else 0.0,
          intent.quantity,
          if intent.strategy != "" then intent.strategy else w.defaultStrategy,
          if intent.underlying.Some? then Some(intent.symbol) else None)
  }

  /** _place_order: an order for the lane's next bars, unless it is busy or no bar is left before the flatten time. */
  function PlaceOrder(w: World, data: LaneData, lane: Lane, book: Book, intent: Intent): Outcome
    requires intent.Entry? && -1 <= lane.cursor
  {
    var next := lane.cursor + 1;
    if lane.Busy() || (intent.underlying.Some? && w.ledger.None?) || next >= |data.intraday| then Outcome(lane, book)
    else
      var lastActive := LastActive(w.settings, w.calendar, data.intraday, next);
      if lastActive.None? then Outcome(lane, book)
      else
        var order := NewOrder(w, data, next, lastActive.value, intent);
        Outcome(lane.(order := Some(order)),
                book.(placed :=
                  book.placed + [Attempt(order.strategy, order.symbol, w.calendar.day(intent.timestamp))]))
  }

  /** The price of an engine-driven exit: the close for a share, the bid for an option, zero if nothing is bid. */
  function EngineExitPrice(w: World, bar: Bar, p: Position): real {
    if p.optionSymbol.None? then CloseExitPrice(bar, w.settings.slippageBps)
    else
      var quote := QuoteAt(w, p.optionSymbol, CloseTime(w, bar));
      if quote.None? || quote.value.bid <= 0.0 then 0.0
      else ApplySlippage(quote.value.bid, false, w.settings.slippageBps)
  }

  /** What an engine-driven exit adds to equity, for an option and for a share. */
  function EngineExitGain(p: Position, price: real): real {
    if p.optionSymbol.Some? then p.Gain(price) * 100.0 else p.Gain(price)
  }

  /** _eod_exit. */
  function EngineExit(w: World, bar: Bar, lane: Lane, book: Book, strategy: Strategy, reason: string): Outcome {
    if lane.position.None? then Outcome(lane, book)
    else
      var named := if reason == "" then "eod_flatten" else reason;
      var price := EngineExitPrice(w, bar, lane.position.value);
      Close(w, bar, lane, book, strategy, price, EngineExitGain(lane.position.value, price),
            if named == "eod_flatten" then "eod" else named)
  }

  function MoveStop(lane: Lane, stop: real): Lane {
    if lane.position.None? || !ShouldUpdateStop(lane.position.value, stop) then lane
    else lane.(position := Some(lane.position.value.(stopPrice := stop, trailingActive := true)))
  }

  /** One intent applied to its lane; exits and stop updates wait for a fresh bar. */
  function Apply(
    w: World, data: LaneData, lane: Lane, book: Book, moved: bool, strategy: Strategy, intent: Intent): Outcome
    requires -1 <= lane.cursor < |data.intraday|
  {
    match intent
    case Entry(_, _, _, _, _, _, _, _) => PlaceOrder(w, data, lane, book, intent)
    case Exit(_, _, reason) =>
      if !moved || lane.cursor < 0 then Outcome(lane, book)
      else EngineExit(w, data.intraday[lane.cursor], lane, book, strategy, reason)
    case UpdateStop(_, _, stop, _) =>
      Outcome(if moved then MoveStop(lane, stop) else lane, book)
  }

  function Route(w: World, st: State, moved: seq<bool>, strategy: Strategy, intent: Intent): (r: State)
    requires Fits(w, st.lanes) && |moved| == |st.lanes|
  {
    var k := LaneIndex(w.lanes, intent.LaneSymbol());
    if k == |w.lanes| then st
    else
      var o := Apply(w, w.lanes[k], st.lanes[k], st.book, moved[k], strategy, intent);
      State(st.lanes[k := o.lane], o.book)
  }

  /** The first n intents of a cycle routed in order. */
  function RouteAll(w: World, st: State, moved: seq<bool>, strategy: Strategy, intents: seq<Intent>, n: nat): (r: State)
    requires Fits(w, st.lanes) && |moved| == |st.lanes| && n <= |intents|
    ensures |r.lanes| == |st.lanes|
    ensures forall i :: 0 <= i < |r.lanes| ==> r.lanes[i].cursor == st.lanes[i].cursor
  {
    if n == 0 then st
    else Route(w, RouteAll(w, st, moved, strategy, intents, n - 1), moved, strategy, intents[n - 1])
  }

  // ---------------------------------------------------------------- ticks

  /** One strategy's cycle and its intents. */
  function RunSlot(w: World, st: State, now: int, moved: seq<bool>, slot: Slot): (r: State)
    requires Fits(w, st.lanes) && |moved| == |st.lanes|
    ensures |r.lanes| == |st.lanes|
    ensures forall i :: 0 <= i < |r.lanes| ==> r.lanes[i].cursor == st.lanes[i].cursor
  {
    var intents := slot.decide(CycleFor(w, st, now, slot));
    if intents.Failure? then st.(book := st.book.(raised := true))
    else RouteAll(w, st, moved, slot.name, intents.value, |intents.value|)
  }

  /** The first n strategies in sequence: each sees the orders of those before it. */
  function RunSlots(w: World, st: State, now: int, moved: seq<bool>, n: nat): (r: State)
    requires Fits(w, st.lanes) && |moved| == |st.lanes| && n <= |w.slots|
    ensures |r.lanes| == |st.lanes|
    ensures forall i :: 0 <= i < |r.lanes| ==> r.lanes[i].cursor == st.lanes[i].cursor
  {
    if n == 0 then st else RunSlot(w, RunSlots(w, st, now, moved, n - 1), now, moved, w.slots[n - 1])
  }

  /** Fills and exits of the fresh lanes. */
  function Resolved(w: World, st: State, now: int): (r: State)
    requires Fits(w, st.lanes)
    ensures Fits(w, r.lanes)
  {
    ResolveLanes(w, State(Advance(w, st.lanes, now), st.book), FreshLanes(w, st.lanes, now), |st.lanes|)
  }

  function Tick(w: World, st: State, now: int): (r: State)
    requires Fits(w, st.lanes)
    ensures Fits(w, r.lanes)
  {
    var moved := FreshLanes(w, st.lanes, now);
    var resolved := Resolved(w, st, now);
    if true !in moved then resolved else RunSlots(w, resolved, now, moved, |w.slots|)
  }

  function Start(w: World): State {
    State(seq(|w.lanes|, i => Lane(-1, None, None)), Book(w.startingEquity, [], map[], [], [], false))
  }

  /** The state after the first k ticks of the timeline. */
  function After(w: World, k: nat): (r: State)
    requires k <= |Timeline(w)|
    ensures Fits(w, r.lanes)
  {
    if k == 0 then Start(w) else Tick(w, After(w, k - 1), Timeline(w)[k - 1])
  }

  /** The run's trade records, unless an exception ended it. */
  function Run(w: World): Result<seq<Trade>> {
    var last := After(w, |Timeline(w)|).book;
    if last.raised then Failure else Success(last.trades)
  }

  /** The first n intents of the j-th strategy's cycle. */
  function PartSlot(w: World, st: State, now: int, moved: seq<bool>, j: nat, n: nat): (r: State)
    requires Fits(w, st.lanes) && |moved| == |st.lanes| && j < |w.slots|
    ensures |r.lanes| == |st.lanes|
    ensures forall i :: 0 <= i < |r.lanes| ==> r.lanes[i].cursor == st.lanes[i].cursor
  {
    var intents := w.slots[j].decide(CycleFor(w, st, now, w.slots[j]));
    if intents.Failure? || n > |intents.value| then st
    else RouteAll(w, st, moved, w.slots[j].name, intents.value, n)
  }

  /** The state within tick k: lanes resolved, the first j strategies run, and n intents of the next one routed. */
  function During(w: World, k: nat, j: nat, n: nat): State
    requires k < |Timeline(w)| && j <= |w.slots|
  {
    var st, now := After(w, k), Timeline(w)[k];
    var moved := FreshLanes(w, st.lanes, now);
    var between := RunSlots(w, Resolved(w, st, now), now, moved, j);
    if j == |w.slots| then between else PartSlot(w, between, now, moved, j, n)
  }
}
