/** The single-symbol runner's event log (replay/runner.py): its grammar, and what the report reads back from it. */
module SingleReplay {
  import opened Numbers
  import opened Collections
  import opened Domain
  import opened EngineTypes
  import opened Mechanics
  import opened Portfolio

  datatype Event =
    | OrderPlaced(symbol: Symbol, timestamp: int, stop: real, limit: real, initialStop: real)
    | OrderExpired(symbol: Symbol, timestamp: int, stop: real, limit: real)
    | EntryFilled(symbol: Symbol, timestamp: int, entryPrice: real, initialStop: real, quantity: real,
      strategy: Strategy)
    | StopUpdated(symbol: Symbol, timestamp: int, stop: real)
    | StopHit(symbol: Symbol, timestamp: int, exitPrice: real)
    | TargetHit(symbol: Symbol, timestamp: int, exitPrice: real)
    | EodExit(symbol: Symbol, timestamp: int, exitPrice: real, reason: string)
  {
    predicate IsExit() {
      StopHit? || TargetHit? || EodExit?
    }

    function ExitPrice(): real
      requires IsExit()
    {
      match this
      case StopHit(_, _, price) => price
      case TargetHit(_, _, price) => price
      case EodExit(_, _, price, _) => price
    }

    function ExitReason(): string
      requires IsExit()
    {
      match this
      case StopHit(_, _, _) => "stop"
      case TargetHit(_, _, _) => "profit_target"
      case EodExit(_, _, _, reason) => if reason == "" || reason == "eod_flatten" then "eod" else reason
    }
  }

  datatype Scenario = Scenario(
    settings: Settings,
    calendar: Calendar,
    symbol: Symbol,
    bars: seq<Bar>,
    daily: seq<Bar>,
    regimeDaily: seq<Bar>,
    contextFor: Day -> Option<MarketContext>,
    startingEquity: real,
    strategy: Strategy,
    decide: CycleInput -> Result<seq<Intent>>)

  datatype Replay = Replay(
    equity: real,
    order: Option<Order>,
    position: Option<Position>,
    traded: set<(Symbol, Day)>,
    events: seq<Event>,
    raised: bool)
  {
    function Log(event: Event): Replay {
      this.(events := events + [event])
    }
  }

  // ---------------------------------------------------------------- one bar

  function Expire(bar: Bar, r: Replay): Replay
    requires r.order.Some?
  {
    var order := r.order.value;
    r.(order := None).Log(OrderExpired(order.symbol, bar.timestamp, order.stopPrice, order.limitPrice))
  }

  /** _process_existing_order. */
  function ProcessOrder(s: Settings, bar: Bar, r: Replay): Replay {
    if r.order.None? || bar.timestamp < r.order.value.activeTimestamp then r
    else
      var order := r.order.value;
      var raw := BuyStopLimitFill(bar, order.stopPrice, order.limitPrice);
      if bar.timestamp > order.lastActiveTimestamp then Expire(bar, r)
      else if raw.None? then if bar.timestamp >= order.lastActiveTimestamp then Expire(bar, r) else r
      else
        var price := EntryFillPrice(raw.value, order.limitPrice, s.slippageBps);
        r.(order := None, position := Some(Filled(order, bar, price)))
         .Log(EntryFilled(order.symbol, bar.timestamp, price, order.initialStopPrice, order.quantity, order.strategy))
  }

  /** Leave the position at a price; the event carries the price rounded to cents, the equity does not. */
  function Leave(cal: Calendar, bar: Bar, r: Replay, price: real, event: Event): Replay
    requires r.position.Some?
  {
    var p := r.position.value;
    r.(equity := r.equity + p.Gain(price),
       traded := r.traded + {(p.symbol, cal.day(bar.timestamp))},
       position := None).Log(event)
  }

  function Marked(bar: Bar, r: Replay): Replay {
    if r.position.None? then r
    else r.(position := Some(r.position.value.(highestPrice := Max(r.position.value.highestPrice, bar.high))))
  }

  predicate StopIsHit(bar: Bar, r: Replay) {
    r.position.Some? && bar.low <= r.position.value.stopPrice
  }

  predicate TargetIsHit(s: Settings, bar: Bar, r: Replay) {
    s.enableProfitTarget && r.position.Some? && bar.high >= ProfitTargetPrice(r.position.value, s.profitTargetR)
  }

  function LeaveAtStop(sc: Scenario, bar: Bar, r: Replay): Replay
    requires r.position.Some?
  {
    var price := StopExitPrice(bar, r.position.value, sc.settings.slippageBps);
    Leave(sc.calendar, bar, r, price, StopHit(r.position.value.symbol, bar.timestamp, Round(price, CENT)))
  }

  function LeaveAtTarget(sc: Scenario, bar: Bar, r: Replay): Replay
    requires r.position.Some?
  {
    var price := ApplySlippage(
      ProfitTargetPrice(r.position.value, sc.settings.profitTargetR), false, sc.settings.slippageBps);
    Leave(sc.calendar, bar, r, price, TargetHit(r.position.value.symbol, bar.timestamp, Round(price, CENT)))
  }

  function LeaveAtClose(sc: Scenario, bar: Bar, r: Replay, reason: string): Replay {
    if r.position.None? then r
    else
      var price := CloseExitPrice(bar, sc.settings.slippageBps);
      Leave(sc.calendar, bar, r, price,
        EodExit(r.position.value.symbol, bar.timestamp, Round(price, CENT),
          if reason == "" then "eod_flatten" else reason))
  }

  function MoveStopTo(bar: Bar, r: Replay, stop: real): Replay {
    if r.position.None? || !ShouldUpdateStop(r.position.value, stop) then r
    else
      r.(position := Some(r.position.value.(stopPrice := stop, trailingActive := true)))
       .Log(StopUpdated(r.position.value.symbol, bar.timestamp, stop))
  }

  /** Place an order for the next bar. An entry without stop prices cannot be replayed here. */
  function Place(sc: Scenario, index: nat, r: Replay, intent: Intent): Replay
    requires intent.Entry? && index < |sc.bars|
  {
    if index + 1 >= |sc.bars| || r.position.Some? || r.order.Some? then r
    else
      var lastActive := LastActive(sc.settings, sc.calendar, sc.bars, index + 1);
      if lastActive.None? then r
      else if intent.stop.None? || intent.initialStop.None? then r.(raised := true)
      else
        var order := Order(
          intent.symbol, intent.timestamp, sc.bars[index + 1].timestamp, lastActive.value,
          intent.stop.value, intent.limit, intent.initialStop.value, intent.quantity,
          if intent.strategy != "" then intent.strategy else sc.strategy, None);
        r.(order := Some(order))
         .Log(OrderPlaced(intent.symbol, sc.bars[index].timestamp, intent.stop.value, intent.limit,
           intent.initialStop.value))
  }

  function Handle(sc: Scenario, index: nat, r: Replay, intent: Intent): Replay
    requires index < |sc.bars|
  {
    match intent
    case Entry(_, _, _, _, _, _, _, _) => Place(sc, index, r, intent)
    case Exit(_, _, reason) => LeaveAtClose(sc, sc.bars[index], r, reason)
    case UpdateStop(_, _, stop, _) => MoveStopTo(sc.bars[index], r, stop)
  }

  function HandleAll(sc: Scenario, index: nat, r: Replay, intents: seq<Intent>, n: nat): Replay
    requires index < |sc.bars| && n <= |intents|
  {
    if n == 0 then r else Handle(sc, index, HandleAll(sc, index, r, intents, n - 1), intents[n - 1])
  }

  /** The engine's input on a bar: the lone symbol's bars up to it, and what is open or working. */
  function CycleOn(sc: Scenario, index: nat, r: Replay): CycleInput
    requires index < |sc.bars|
  {
    var bar := sc.bars[index];
    var today := sc.calendar.day(bar.timestamp);
    var positions := if r.position.Some? then [r.position.value] else [];
    var working := if r.order.Some? then {r.order.value.symbol} else {};
    CycleInput(
      bar.timestamp,
      r.equity,
      map[sc.symbol := sc.bars[..index + 1]],
      map[sc.symbol := DailySeries(DailyBefore(sc.calendar, sc.daily, today), AllPositive(sc.daily))],
      positions,
      working,
      r.traded,
      |positions| + |working|,
      [sc.symbol],
      if sc.settings.enableRegime && sc.regimeDaily != []
      then Some(DailyBefore(sc.calendar, sc.regimeDaily, today)) else None,
      sc.contextFor(today),
      map[])
  }

  function Decide(sc: Scenario, index: nat, r: Replay): Replay
    requires index < |sc.bars|
  {
    var intents := sc.decide(CycleOn(sc, index, r));
    if intents.Failure? then r.(raised := true) else HandleAll(sc, index, r, intents.value, |intents.value|)
  }

  /** One bar: order, then stop, then target, and only if neither was hit the engine. */
  function OnBar(sc: Scenario, index: nat, r: Replay): Replay
    requires index < |sc.bars|
  {
    var bar := sc.bars[index];
    var marked := Marked(bar, ProcessOrder(sc.settings, bar, r));
    if StopIsHit(bar, marked) then LeaveAtStop(sc, bar, marked)
    else if TargetIsHit(sc.settings, bar, marked) then LeaveAtTarget(sc, bar, marked)
    else Decide(sc, index, marked)
  }

  function AfterBars(sc: Scenario, n: nat): Replay
    requires n <= |sc.bars|
  {
    if n == 0 then Replay(sc.startingEquity, None, None, {}, [], false) else OnBar(sc, n - 1, AfterBars(sc, n - 1))
  }

  // ---------------------------------------------------------------- the grammar of the log

  datatype Phase =
    | Idle
    | Working(symbol: Symbol)
    | Holding(fill: Event, stop: real)
    | Broken

  /** placed -> (expired | filled -> stop updates that tighten -> one exit), one symbol at a time. */
  function Next(phase: Phase, e: Event): Phase {
    match phase
    case Idle => if e.OrderPlaced? then Working(e.symbol) else Broken
    case Working(symbol) =>
      if e.OrderExpired? && e.symbol == symbol then Idle
      else if e.EntryFilled? && e.symbol == symbol then Holding(e, e.initialStop)
      else Broken
    case Holding(fill, stop) =>
      if !fill.EntryFilled? || e.symbol != fill.symbol then Broken
      else if e.StopUpdated? && Tightens(fill.quantity, stop, e.stop) then Holding(fill, e.stop)
      else if e.IsExit() then Idle
      else Broken
    case Broken => Broken
  }

  function PhaseAfter(events: seq<Event>): Phase {
    if events == [] then Idle else Next(PhaseAfter(events[..|events| - 1]), events[|events| - 1])
  }

  // ---------------------------------------------------------------- reading trades back

  datatype Extraction = Extraction(openFills: map<Symbol, Event>, trades: seq<Trade>)

  function TradeOf(fill: Event, exit: Event): Trade
    requires fill.EntryFilled? && exit.IsExit()
  {
    Trade(exit.symbol, fill.entryPrice, exit.ExitPrice(), fill.quantity, fill.timestamp, exit.timestamp,
      exit.ExitReason(),
          (exit.ExitPrice() - fill.entryPrice) * fill.quantity, fill.strategy)
  }

  predicate OnlyFills(openFills: map<Symbol, Event>) {
    forall x :: x in openFills ==> openFills[x].EntryFilled?
  }

  function Read(x: Extraction, e: Event): (r: Extraction)
    requires OnlyFills(x.openFills)
    ensures OnlyFills(r.openFills)
  {
    if e.EntryFilled? then x.(openFills := x.openFills[e.symbol := e])
    else if e.IsExit() && e.symbol in x.openFills then
      Extraction(x.openFills - {e.symbol}, x.trades + [TradeOf(x.openFills[e.symbol], e)])
    else x
  }

  /** _extract_trades. */
  function Extract(events: seq<Event>): (r: Extraction)
    ensures OnlyFills(r.openFills)
  {
    if events == [] then Extraction(map[], []) else Read(Extract(events[..|events| - 1]), events[|events| - 1])
  }

  method ExtractTrades(events: seq<Event>) returns (trades: seq<Trade>)
    ensures trades == Extract(events).trades
  {
    var openFills: map<Symbol, Event> := map[];
    trades := [];
    for i := 0 to |events|
      invariant OnlyFills(openFills) && Extraction(openFills, trades) == Extract(events[..i])
    {
      assert events[..i + 1][..i] == events[..i];
      var e := events[i];
      if e.EntryFilled? {
        openFills := openFills[e.symbol := e];
      } else if e.IsExit() {
        if e.symbol !in openFills {
          continue;
        }
        var fill := openFills[e.symbol];
        openFills := openFills - {e.symbol};
        trades := trades + [TradeOf(fill, e)];
      }
    }
    assert events[..|events|] == events;
  }

  function ExitCount(events: seq<Event>): nat {
    if events == [] then 0 else ExitCount(events[..|events| - 1]) + if events[|events| - 1].IsExit() then 1 else 0
  }

  /** What a log in good order has open: the fill of the position held, and nothing else. */
  predicate FillsOf(phase: Phase, openFills: map<Symbol, Event>) {
    match phase
    case Holding(fill, _) => fill.EntryFilled? && openFills == map[fill.symbol := fill]
    case _ => openFills == map[]
  }

  /** Reading a log in good order, every exit finds its fill: as many trades as exits. */
  lemma {:induction false} ExitsFindTheirFills(events: seq<Event>)
    requires PhaseAfter(events) != Broken
    ensures FillsOf(PhaseAfter(events), Extract(events).openFills)
    ensures |Extract(events).trades| == ExitCount(events)
  {
    if events != [] {
      ExitsFindTheirFills(events[..|events| - 1]);
    }
  }

  // ---------------------------------------------------------------- the runner writes good logs

  function PhaseOf(r: Replay): Phase {
    PhaseAfter(r.events)
  }

  /** The phase of the log is the state of the runner. */
  ghost predicate InPhase(r: Replay) {
    && !(r.order.Some? && r.position.Some?)
    && (r.order.Some? ==> PhaseOf(r) == Working(r.order.value.symbol))
    && (r.position.Some? ==>
          var p := r.position.value;
          && PhaseOf(r).Holding? && PhaseOf(r).fill.EntryFilled? && PhaseOf(r).stop == p.stopPrice
          && PhaseOf(r).fill.symbol == p.symbol && PhaseOf(r).fill.entryPrice == p.entryPrice
          && PhaseOf(r).fill.quantity == p.quantity && PhaseOf(r).fill.strategy == p.strategy
          && PhaseOf(r).fill.timestamp == p.entryTimestamp)
    && (r.order.None? && r.position.None? ==> PhaseOf(r) == Idle)
  }

  function TotalQuantity(trades: seq<Trade>): real {
    if trades == [] then 0.0 else TotalQuantity(trades[..|trades| - 1]) + Abs(trades[|trades| - 1].quantity)
  }

  /** The extracted results are the change in equity, but for half a cent a share. */
  ghost predicate NearEquity(start: real, r: Replay) {
    var trades := Extract(r.events).trades;
    Abs(TotalPnl(trades) - (r.equity - start)) <= 0.005 * TotalQuantity(trades)
  }

  ghost predicate Inv(start: real, r: Replay) {
    InPhase(r) && NearEquity(start, r)
  }

  lemma {:induction false} LogPhase(r: Replay, e: Event)
    ensures PhaseOf(r.Log(e)) == Next(PhaseOf(r), e)
    ensures Extract(r.Log(e).events) == Read(Extract(r.events), e)
  {
    assert (r.events + [e])[..|r.events|] == r.events;
  }

  /** An event that is no exit leaves the extracted trades alone. */
  lemma {:induction false} LogKeepsNear(start: real, r: Replay, later: Replay, e: Event)
    requires NearEquity(start, r) && !e.IsExit() && later.equity == r.equity && later.events == r.events + [e]
    ensures NearEquity(start, later)
  {
    hide TotalPnl, TotalQuantity, Extract;
    LogPhase(r, e);
  }

  lemma {:induction false} ProcessOrderKeeps(start: real, s: Settings, bar: Bar, r: Replay)
    requires Inv(start, r) && (r.order.Some? ==> r.order.value.optionSymbol.None?)
    ensures Inv(start, ProcessOrder(s, bar, r))
  {
    hide EntryFillPrice, BuyStopLimitFill, NearEquity, PhaseAfter;
    var later := ProcessOrder(s, bar, r);
    if later.events != r.events {
      var e := later.events[|r.events|];
      LogPhase(r, e);
      LogKeepsNear(start, r, later, e);
    }
    if later.events == r.events {
      assert later == r;
    }
  }

  /** Rounding the exit price to cents moves a trade's result by half a cent a share at most. */
  lemma {:induction false} RoundingCost(price: real, entry: real, quantity: real, recorded: real, earned: real)
    requires recorded == (Round(price, CENT) - entry) * quantity
    requires earned == (price - entry) * quantity
    ensures Abs(recorded - earned) <= 0.005 * Abs(quantity)
  {
    var gap := Round(price, CENT) - price;
    hide Round;
    assert recorded - earned == gap * quantity;
    ProductBound(gap, quantity);
  }

  lemma {:induction false} Within(gap: real, size: real)
    requires Abs(gap) <= 0.005 && size >= 0.0
    ensures Abs(gap * size) <= 0.005 * size
  {
    TimesMonotone(gap, 0.005, size);
    TimesMonotone(-gap, 0.005, size);
    Mirrored(size, gap);
  }

  lemma {:induction false} Mirrored(x: real, y: real)
    ensures x * -y == -(x * y)
  {
  }

  lemma {:induction false} ProductBound(gap: real, quantity: real)
    requires Abs(gap) <= 0.005
    ensures Abs(gap * quantity) <= 0.005 * Abs(quantity)
  {
    if quantity >= 0.0 {
      Within(gap, quantity);
    } else {
      Within(gap, -quantity);
      Mirrored(gap, quantity);
    }
  }

  lemma {:induction false} TotalQuantityAppend(trades: seq<Trade>, t: Trade)
    ensures TotalQuantity(trades + [t]) == TotalQuantity(trades) + Abs(t.quantity)
  {
    assert (trades + [t])[..|trades|] == trades;
  }

  /** Leaving a position adds its trade to the extraction and half a cent a share to the gap. */
  lemma {:induction false} LeaveKeeps(start: real, cal: Calendar, bar: Bar, r: Replay, price: real, e: Event)
    requires Inv(start, r) && r.position.Some?
    requires e.IsExit() && e.symbol == r.position.value.symbol && e.ExitPrice() == Round(price, CENT)
    ensures Inv(start, Leave(cal, bar, r, price, e))
  {
    hide NearEquity, TotalPnl, TotalQuantity, PhaseAfter, Round;
    var later, p := Leave(cal, bar, r, price, e), r.position.value;
    var before := r.(equity := later.equity, traded := later.traded, position := None);
    LogPhase(before, e);
    ExitsFindTheirFills(r.events);
    var fill := PhaseOf(r).fill;
    var t := TradeOf(fill, e);
    assert Extract(later.events).trades == Extract(r.events).trades + [t];
    RoundingCost(price, p.entryPrice, p.quantity, t.pnl, later.equity - r.equity);
    LeaveNear(start, r, later, Extract(r.events).trades, t);
  }

  lemma {:induction false} LeaveNear(start: real, r: Replay, later: Replay, trades: seq<Trade>, t: Trade)
    requires NearEquity(start, r) && trades == Extract(r.events).trades && Extract(later.events).trades == trades + [t]
    requires Abs(t.pnl - (later.equity - r.equity)) <= 0.005 * Abs(t.quantity)
    ensures NearEquity(start, later)
  {
    hide Extract, TotalPnl, TotalQuantity;
    TotalPnlAppend(trades, t);
    TotalQuantityAppend(trades, t);
  }

  // ---------------------------------------------------------------- whole runs

  lemma {:induction false} MarkedKeeps(start: real, bar: Bar, r: Replay)
    requires Inv(start, r)
    ensures Inv(start, Marked(bar, r))
  {
    hide NearEquity, PhaseAfter;
    assert Marked(bar, r).events == r.events && Marked(bar, r).equity == r.equity;
    NearSame(start, r, Marked(bar, r));
  }

  lemma {:induction false} NearSame(start: real, r: Replay, later: Replay)
    requires NearEquity(start, r) && later.equity == r.equity && later.events == r.events
    ensures NearEquity(start, later)
  {
  }

  lemma {:induction false} MoveStopKeeps(start: real, bar: Bar, r: Replay, stop: real)
    requires Inv(start, r)
    ensures Inv(start, MoveStopTo(bar, r, stop))
  {
    hide NearEquity, PhaseAfter;
    var later := MoveStopTo(bar, r, stop);
    if later != r {
      var e := StopUpdated(r.position.value.symbol, bar.timestamp, stop);
      LogPhase(r, e);
      LogKeepsNear(start, r, later, e);
    }
  }

  lemma {:induction false} PlaceKeeps(start: real, sc: Scenario, index: nat, r: Replay, intent: Intent)
    requires Inv(start, r) && intent.Entry? && index < |sc.bars|
    ensures Inv(start, Place(sc, index, r, intent))
  {
    hide NearEquity, PhaseAfter, LastActive;
    var later := Place(sc, index, r, intent);
    if later.events != r.events {
      var e := later.events[|r.events|];
      LogPhase(r, e);
      LogKeepsNear(start, r, later, e);
    } else {
      NearSame(start, r, later);
    }
  }

  predicate EquityOrder(r: Replay) {
    r.order.Some? ==> r.order.value.optionSymbol.None?
  }

  lemma {:induction false} HandleKeeps(start: real, sc: Scenario, index: nat, r: Replay, intent: Intent)
    requires Inv(start, r) && EquityOrder(r) && index < |sc.bars|
    ensures Inv(start, Handle(sc, index, r, intent)) && EquityOrder(Handle(sc, index, r, intent))
  {
    hide Inv, LastActive, ApplySlippage;
    match intent
    case Entry(_, _, _, _, _, _, _, _) => PlaceKeeps(start, sc, index, r, intent);
    case Exit(_, _, reason) =>
      if r.position.Some? {
        var bar := sc.bars[index];
        var price := CloseExitPrice(bar, sc.settings.slippageBps);
        LeaveKeeps(start, sc.calendar, bar, r, price,
          EodExit(r.position.value.symbol, bar.timestamp, Round(price, CENT),
            if reason == "" then "eod_flatten" else reason));
      }
    case UpdateStop(_, _, stop, _) => MoveStopKeeps(start, sc.bars[index], r, stop);
  }

  lemma {:induction false} HandleAllKeeps(
    start: real, sc: Scenario, index: nat, r: Replay, intents: seq<Intent>, n: nat)
    requires Inv(start, r) && EquityOrder(r) && index < |sc.bars| && n <= |intents|
    ensures var later := HandleAll(sc, index, r, intents, n);
            Inv(start, later) && EquityOrder(later)
  {
    hide Inv, Handle, EquityOrder;
    if n > 0 {
      HandleAllKeeps(start, sc, index, r, intents, n - 1);
      HandleKeeps(start, sc, index, HandleAll(sc, index, r, intents, n - 1), intents[n - 1]);
    }
  }

  lemma {:induction false} DecideKeeps(start: real, sc: Scenario, index: nat, r: Replay)
    requires Inv(start, r) && EquityOrder(r) && index < |sc.bars|
    ensures Inv(start, Decide(sc, index, r)) && EquityOrder(Decide(sc, index, r))
  {
    hide CycleOn, HandleAll, NearEquity, PhaseAfter;
    var intents := sc.decide(CycleOn(sc, index, r));
    if intents.Success? {
      HandleAllKeeps(start, sc, index, r, intents.value, |intents.value|);
    } else {
      NearSame(start, r, r.(raised := true));
    }
  }

  lemma {:induction false} OnBarKeeps(start: real, sc: Scenario, index: nat, r: Replay)
    requires Inv(start, r) && EquityOrder(r) && index < |sc.bars|
    ensures Inv(start, OnBar(sc, index, r)) && EquityOrder(OnBar(sc, index, r))
  {
    hide Inv, Decide, FillPrice, EntryFillPrice, BuyStopLimitFill, StopExitPrice, ApplySlippage, ProfitTargetPrice;
    var bar := sc.bars[index];
    var resolved := ProcessOrder(sc.settings, bar, r);
    var marked := Marked(bar, resolved);
    ProcessOrderKeeps(start, sc.settings, bar, r);
    MarkedKeeps(start, bar, resolved);
    if StopIsHit(bar, marked) {
      var price := StopExitPrice(bar, marked.position.value, sc.settings.slippageBps);
      LeaveKeeps(start, sc.calendar, bar, marked, price,
        StopHit(marked.position.value.symbol, bar.timestamp, Round(price, CENT)));
    } else if TargetIsHit(sc.settings, bar, marked) {
      var price := ApplySlippage(
        ProfitTargetPrice(marked.position.value, sc.settings.profitTargetR), false, sc.settings.slippageBps);
      LeaveKeeps(start, sc.calendar, bar, marked, price,
        TargetHit(marked.position.value.symbol, bar.timestamp, Round(price, CENT)));
    } else {
      DecideKeeps(start, sc, index, marked);
    }
  }

  lemma {:induction false} RunKeeps(sc: Scenario, n: nat)
    requires n <= |sc.bars|
    ensures Inv(sc.startingEquity, AfterBars(sc, n)) && EquityOrder(AfterBars(sc, n))
  {
    hide OnBar, Inv;
    if n == 0 {
      StartKeeps(sc.startingEquity, AfterBars(sc, 0));
    } else {
      RunKeeps(sc, n - 1);
      OnBarKeeps(sc.startingEquity, sc, n - 1, AfterBars(sc, n - 1));
    }
  }

  lemma {:induction false} StartKeeps(start: real, r: Replay)
    requires r == Replay(start, None, None, {}, [], false)
    ensures Inv(start, r)
  {
  }

  /** After any number of bars, whatever the engine asked for, the log is in order and mirrors the runner's state. */
  lemma {:induction false} LogIsGrammatical(sc: Scenario, n: nat)
    requires n <= |sc.bars|
    ensures PhaseAfter(AfterBars(sc, n).events) != Broken
    ensures AfterBars(sc, n).order.Some? <==> PhaseAfter(AfterBars(sc, n).events).Working?
    ensures AfterBars(sc, n).position.Some? <==> PhaseAfter(AfterBars(sc, n).events).Holding?
  {
    hide OnBar, NearEquity;
    RunKeeps(sc, n);
  }

  /** The report misses no exit, and its total is the change in equity to within half a cent a share traded. */
  lemma {:induction false} ReportMatchesEquity(sc: Scenario, n: nat)
    requires n <= |sc.bars|
    ensures var r := AfterBars(sc, n);
            var trades := Extract(r.events).trades;
            && |trades| == ExitCount(r.events)
            && Abs(TotalPnl(trades) - (r.equity - sc.startingEquity)) <= 0.005 * TotalQuantity(trades)
  {
    hide OnBar, TotalPnl, TotalQuantity;
    RunKeeps(sc, n);
    LogIsGrammatical(sc, n);
    ExitsFindTheirFills(AfterBars(sc, n).events);
  }
}
