/** What each operation on one lane keeps: the order's window, exclusivity, the ledger of equity, blocked attempts. */
module PortfolioLane {
  import opened Numbers
  import opened Domain
  import opened EngineTypes
  import opened Mechanics
  import opened Portfolio

  // ---------------------------------------------------------------- one lane's invariant

  ghost predicate Stamped(bars: seq<Bar>) {
    forall i, j :: 0 <= i < j < |bars| ==> bars[i].timestamp < bars[j].timestamp
  }

  /** The order may fill on bars first..last, which start before the flatten time of the first one's day. */
  ghost predicate Window(w: World, bars: seq<Bar>, order: Order, first: nat, last: nat) {
    && 1 <= first <= last < |bars|
    && last < first + w.settings.activeBars
    && order.signalTimestamp == bars[first - 1].timestamp
    && order.activeTimestamp == bars[first].timestamp
    && order.lastActiveTimestamp == bars[last].timestamp < w.calendar.flattenAt(w.calendar.day(bars[first].timestamp))
  }

  /** The lane has yet to resolve its order on the window's last bar; a pending lane has just reached a bar of it. */
  ghost predicate OrderOk(w: World, data: LaneData, cursor: int, order: Order, pending: bool) {
    && order.symbol == data.symbol
    && order.quantity > 0.0
    && exists first: nat, last: nat ::
        && Window(w, data.intraday, order, first, last)
        && if pending then first <= cursor <= last else first - 1 <= cursor < last
  }

  predicate PositionOk(data: LaneData, cursor: int, p: Position) {
    && p.symbol == data.symbol
    && p.quantity > 0.0
    && 0 <= cursor < |data.intraday|
    && p.entryTimestamp <= data.intraday[cursor].timestamp
  }

  /** A lane holds an order or a position, never both. */
  ghost predicate LaneOk(w: World, data: LaneData, lane: Lane, pending: bool) {
    && -1 <= lane.cursor < |data.intraday|
    && !(lane.order.Some? && lane.position.Some?)
    && (lane.order.Some? ==> OrderOk(w, data, lane.cursor, lane.order.value, pending))
    && (lane.position.Some? ==> PositionOk(data, lane.cursor, lane.position.value))
  }

  lemma {:induction false} AdvanceKeepsLane(w: World, data: LaneData, lane: Lane)
    requires Stamped(data.intraday) && LaneOk(w, data, lane, false) && lane.cursor + 1 < |data.intraday|
    ensures LaneOk(w, data, lane.(cursor := lane.cursor + 1), true)
  {
    if lane.order.Some? {
      var first: nat, last: nat :| Window(w, data.intraday, lane.order.value, first, last) &&
        first - 1 <= lane.cursor < last;
      assert Window(w, data.intraday, lane.order.value, first, last);
    }
  }

  /** The branch for bars past the order's window is never taken. */
  lemma {:induction false} NeverPastWindow(w: World, data: LaneData, lane: Lane)
    requires Stamped(data.intraday) && LaneOk(w, data, lane, true) && lane.order.Some?
    ensures lane.cursor >= 1
    ensures var stamp := data.intraday[lane.cursor].timestamp;
            lane.order.value.activeTimestamp <= stamp <= lane.order.value.lastActiveTimestamp
    ensures data.intraday[lane.cursor].timestamp < lane.order.value.lastActiveTimestamp
            ==> OrderOk(w, data, lane.cursor, lane.order.value, false)
  {
    var bars, order := data.intraday, lane.order.value;
    var first: nat, last: nat :| Window(w, bars, order, first, last) && first <= lane.cursor <= last;
    assert Window(w, bars, order, first, last);
  }

  lemma {:induction false} ResolveOrderKeepsLane(w: World, data: LaneData, lane: Lane, book: Book)
    requires Stamped(data.intraday) && LaneOk(w, data, lane, true) && lane.cursor >= 0
    ensures LaneOk(w, data, ResolveOrder(w, data.intraday[lane.cursor], lane, book).lane, false)
  {
    hide FillPrice, Window;
    if lane.order.Some? {
      NeverPastWindow(w, data, lane);
    }
  }

  lemma {:induction false} ResolveExitsKeepsLane(w: World, data: LaneData, lane: Lane, book: Book)
    requires LaneOk(w, data, lane, false) && lane.cursor >= 0
    ensures LaneOk(w, data, ResolveExits(w, data.intraday[lane.cursor], lane, book).lane, false)
  {
    hide OrderOk, ApplySlippage, StopExitPrice, ProfitTargetPrice, Record;
  }

  lemma {:induction false} ResolveKeepsLane(w: World, data: LaneData, lane: Lane, book: Book)
    requires Stamped(data.intraday) && LaneOk(w, data, lane, true) && lane.cursor >= 0
    ensures LaneOk(w, data, ResolveLane(w, data.intraday[lane.cursor], lane, book).lane, false)
  {
    var bar := data.intraday[lane.cursor];
    hide LaneOk, ResolveOrder, ResolveExits;
    var o := ResolveOrder(w, bar, lane, book);
    ResolveOrderKeepsLane(w, data, lane, book);
    CursorStays(w, bar, lane, book);
    ResolveExitsKeepsLane(w, data, o.lane, o.book);
  }

  lemma {:induction false} CursorStays(w: World, bar: Bar, lane: Lane, book: Book)
    ensures ResolveOrder(w, bar, lane, book).lane.cursor == lane.cursor
    ensures ResolveExits(w, bar, lane, book).lane.cursor == lane.cursor
  {
    hide FillPrice, ApplySlippage, StopExitPrice, ProfitTargetPrice, Record;
  }

  /** An entry for this lane's latest bar. */
  predicate EntryFor(data: LaneData, lane: Lane, strategy: Strategy, intent: Intent) {
    && intent.Entry?
    && intent.LaneSymbol() == data.symbol
    && 0 <= lane.cursor < |data.intraday|
    && intent.timestamp == data.intraday[lane.cursor].timestamp
    && intent.quantity > 0.0
    && intent.strategy == strategy != ""
  }

  lemma {:induction false} PlaceKeepsLane(
    w: World, data: LaneData, lane: Lane, book: Book, strategy: Strategy, intent: Intent)
    requires LaneOk(w, data, lane, false) && EntryFor(data, lane, strategy, intent)
    ensures LaneOk(w, data, PlaceOrder(w, data, lane, book, intent).lane, false)
  {
    var next := lane.cursor + 1;
    if !lane.Busy() && next < |data.intraday| {
      var bars := data.intraday;
      var lastActive := LastActive(w.settings, w.calendar, bars, next);
      if lastActive.Some? {
        var order := NewOrder(w, data, next, lastActive.value, intent);
        var last: nat :| next <= last < |bars| && last < next + w.settings.activeBars
                      && bars[last].timestamp == lastActive.value
                      && lastActive.value < w.calendar.flattenAt(w.calendar.day(bars[next].timestamp));
        assert Window(w, bars, order, next, last);
      }
    }
  }

  lemma {:induction false} ApplyKeepsLane(
    w: World, data: LaneData, lane: Lane, book: Book, moved: bool, strategy: Strategy, intent: Intent)
    requires LaneOk(w, data, lane, false)
    requires intent.Entry? ==> EntryFor(data, lane, strategy, intent)
    ensures LaneOk(w, data, Apply(w, data, lane, book, moved, strategy, intent).lane, false)
    ensures Apply(w, data, lane, book, moved, strategy, intent).lane.cursor == lane.cursor
  {
    hide PlaceOrder, OrderOk, EngineExitPrice, Record;
    if intent.Entry? {
      PlaceKeepsLane(w, data, lane, book, strategy, intent);
      PlaceFrame(w, data, lane, book, intent);
    }
  }

  lemma {:induction false} PlaceFrame(w: World, data: LaneData, lane: Lane, book: Book, intent: Intent)
    requires intent.Entry? && -1 <= lane.cursor
    ensures var o := PlaceOrder(w, data, lane, book, intent);
            && o.lane == lane.(order := o.lane.order)
            && o.book == book.(placed := o.book.placed)
            && (o.lane == lane || (!lane.Busy() && o.lane.order.Some?))
            && (o.book.placed != book.placed ==> !lane.Busy())
  {
    hide LastActive, NewOrder;
  }

  // ---------------------------------------------------------------- conservation

  /** How often a lane holds a fill: once if it is the one of its position. */
  function Holding(lane: Lane, fill: Fill): nat {
    if lane.position.Some? && lane.position.value.AsFill() == fill then 1 else 0
  }

  /** How many records close a fill. */
  function Recorded(trades: seq<Trade>, fill: Fill): nat {
    if trades == [] then 0
    else Recorded(trades[..|trades| - 1], fill) + if trades[|trades| - 1].EntryFill() == fill then 1 else 0
  }

  lemma {:induction false} RecordedAppend(trades: seq<Trade>, t: Trade, fill: Fill)
    ensures Recorded(trades + [t], fill) == Recorded(trades, fill) + if t.EntryFill() == fill then 1 else 0
  {
    assert (trades + [t])[..|trades|] == trades;
  }

  /** How often a fill was made beyond being recorded or held by this lane. */
  function Elsewhere(lane: Lane, book: Book, fill: Fill): int {
    multiset(book.fills)[fill] - Recorded(book.trades, fill) - Holding(lane, fill)
  }

  /** Equity moves with the records, and each fill made is still held or has its own record. */
  ghost predicate Conserves(lane: Lane, book: Book, o: Outcome) {
    && o.book.equity - TotalPnl(o.book.trades) == book.equity - TotalPnl(book.trades)
    && forall fill: Fill :: Elsewhere(o.lane, o.book, fill) == Elsewhere(lane, book, fill)
  }

  /** What each kind of exit adds to equity is what its record states. */
  lemma {:induction false} GainIsRecorded(p: Position, price: real)
    ensures p.optionSymbol.None? ==> p.Gain(price) == RecordedPnl(p, price)
    ensures EngineExitGain(p, price) == RecordedPnl(p, price)
  {
  }

  lemma {:induction false} CloseConserves(
    w: World, bar: Bar, lane: Lane, book: Book, blocks: Strategy, price: real, gain: real, reason: string)
    requires lane.position.Some? && gain == RecordedPnl(lane.position.value, price)
    ensures Conserves(lane, book, Close(w, bar, lane, book, blocks, price, gain, reason))
  {
    hide RecordedPnl, TotalPnl, Recorded, Position.RecordedSymbol;
    var t := Record(lane.position.value, bar.timestamp, price, reason);
    TotalPnlAppend(book.trades, t);
    var recorded := book.(trades := book.trades + [t]);
    forall fill: Fill ensures Elsewhere(lane.(position := None), recorded, fill) == Elsewhere(lane, book, fill) {
      RecordedAppend(book.trades, t, fill);
    }
  }

  lemma {:induction false} OrderConserves(w: World, bar: Bar, lane: Lane, book: Book)
    requires !(lane.order.Some? && lane.position.Some?)
    ensures Conserves(lane, book, ResolveOrder(w, bar, lane, book))
  {
    hide FillPrice;
  }

  lemma {:induction false} ExitsConserve(w: World, bar: Bar, lane: Lane, book: Book)
    ensures Conserves(lane, book, ResolveExits(w, bar, lane, book))
  {
    hide Close, ApplySlippage, StopExitPrice, ProfitTargetPrice, RecordedPnl, Position.Gain;
    if lane.position.Some? && lane.position.value.optionSymbol.None? {
      var p := lane.position.value.(highestPrice := Max(lane.position.value.highestPrice, bar.high));
      var marked := lane.(position := Some(p));
      var stopped := StopExitPrice(bar, p, w.settings.slippageBps);
      var reached := ApplySlippage(ProfitTargetPrice(p, w.settings.profitTargetR), false, w.settings.slippageBps);
      GainIsRecorded(p, stopped);
      CloseConserves(w, bar, marked, book, p.strategy, stopped, p.Gain(stopped), "stop");
      GainIsRecorded(p, reached);
      CloseConserves(w, bar, marked, book, p.strategy, reached, p.Gain(reached), "profit_target");
    }
  }

  lemma {:induction false} ResolveConserves(w: World, bar: Bar, lane: Lane, book: Book)
    requires !(lane.order.Some? && lane.position.Some?)
    ensures Conserves(lane, book, ResolveLane(w, bar, lane, book))
  {
    hide ResolveOrder, ResolveExits, Elsewhere;
    var o := ResolveOrder(w, bar, lane, book);
    OrderConserves(w, bar, lane, book);
    ExitsConserve(w, bar, o.lane, o.book);
  }

  lemma {:induction false} ApplyConserves(
    w: World, data: LaneData, lane: Lane, book: Book, moved: bool, strategy: Strategy, intent: Intent)
    requires -1 <= lane.cursor < |data.intraday|
    ensures Conserves(lane, book, Apply(w, data, lane, book, moved, strategy, intent))
  {
    hide PlaceOrder, Close, EngineExitPrice, EngineExitGain, RecordedPnl;
    match intent
    case Entry(_, _, _, _, _, _, _, _) => PlaceFrame(w, data, lane, book, intent);
    case Exit(_, _, reason) =>
      if moved && lane.cursor >= 0 && lane.position.Some? {
        var bar, named := data.intraday[lane.cursor], if reason == "" then "eod_flatten" else reason;
        var price := EngineExitPrice(w, bar, lane.position.value);
        GainIsRecorded(lane.position.value, price);
        CloseConserves(w, bar, lane, book, strategy, price, EngineExitGain(lane.position.value, price),
          if named == "eod_flatten" then "eod" else named);
      }
    case UpdateStop(_, _, _, _) =>
  }

  // ---------------------------------------------------------------- no stop or target is missed

  /** What the bar has left open: a share position above its stop and below its target, an order with bars to go. */
  predicate Survives(w: World, bar: Bar, lane: Lane) {
    && (lane.position.Some? && lane.position.value.optionSymbol.None? ==>
          var p := lane.position.value;
          && bar.low > p.stopPrice
          && bar.high <= p.highestPrice
          && (w.settings.enableProfitTarget ==> bar.high < ProfitTargetPrice(p, w.settings.profitTargetR)))
    && (lane.order.Some? && bar.timestamp >= lane.order.value.activeTimestamp ==>
          bar.timestamp < lane.order.value.lastActiveTimestamp && FillPrice(w, lane.order.value, bar).None?)
  }

  /** A share order fills only on a bar that traded through its stop within its limit, at no more than the limit. */
  predicate FairFill(w: World, bar: Bar, order: Order, price: real) {
    && price <= order.limitPrice
    && (order.optionSymbol.None? ==>
       bar.open <= order.limitPrice && order.stopPrice <= order.limitPrice && order.stopPrice <= bar.high)
  }

  lemma {:induction false} FillIsFair(w: World, bar: Bar, order: Order)
    ensures FillPrice(w, order, bar).Some? ==> FairFill(w, bar, order, FillPrice(w, order, bar).value)
  {
    hide EntryFillPrice, QuoteAt, CloseTime;
    BuyFillIsTraded(bar, order.stopPrice, order.limitPrice);
  }

  lemma {:induction false} ExitsAreDecisive(w: World, bar: Bar, lane: Lane, book: Book)
    requires lane.order.Some? && bar.timestamp >= lane.order.value.activeTimestamp ==>
               bar.timestamp < lane.order.value.lastActiveTimestamp && FillPrice(w, lane.order.value, bar).None?
    ensures var o := ResolveExits(w, bar, lane, book);
            && Survives(w, bar, o.lane)
            && (o.book.trades != book.trades ==>
                  && lane.position.Some? && lane.position.value.optionSymbol.None? && o.lane.position.None?
                  && |o.book.trades| == |book.trades| + 1
                  && var t := o.book.trades[|book.trades|];
                     && t.exitReason == (if bar.low <= lane.position.value.stopPrice then "stop" else "profit_target")
                     && t.exitTime == bar.timestamp)
  {
    hide FillPrice, ApplySlippage, StopExitPrice;
  }

  /** After a lane has resolved a bar, no hit stop, reached target or order that should have ended is left. */
  lemma {:induction false} ResolveIsDecisive(w: World, bar: Bar, lane: Lane, book: Book)
    ensures Survives(w, bar, ResolveLane(w, bar, lane, book).lane)
    ensures ResolveOrder(w, bar, lane, book).book.fills != book.fills ==>
              lane.order.Some? && ResolveOrder(w, bar, lane, book).lane.position.Some?
              && FairFill(w, bar, lane.order.value, ResolveOrder(w, bar, lane, book).lane.position.value.entryPrice)
  {
    hide ResolveExits, FillPrice, FairFill, Survives;
    if lane.order.Some? {
      FillIsFair(w, bar, lane.order.value);
    }
    var o := ResolveOrder(w, bar, lane, book);
    ExitsAreDecisive(w, bar, o.lane, o.book);
  }

  // ---------------------------------------------------------------- blocked attempts

  /** Why a strategy may not try a symbol again on a day it has tried it. */
  predicate Blocks(w: World, data: LaneData, lane: Lane, book: Book, a: Attempt) {
    && 0 <= lane.cursor < |data.intraday|
    && var today := w.calendar.day(data.intraday[lane.cursor].timestamp);
       && a.day <= today
       && (|| a.day < today
           || (a.symbol, a.day) in book.Traded(a.strategy)
           || (lane.order.Some? && lane.order.value.strategy == a.strategy &&
              w.calendar.day(lane.order.value.signalTimestamp) == a.day)
           || (lane.position.Some? && lane.position.value.strategy == a.strategy))
  }

  /** The lane's own symbol, on its order and on its position. */
  predicate Named(data: LaneData, lane: Lane) {
    && (lane.order.Some? ==> lane.order.value.symbol == data.symbol)
    && (lane.position.Some? ==> lane.position.value.symbol == data.symbol)
  }

  /** Blocks only accumulate. */
  predicate Grows(book: Book, later: Book) {
    forall s :: s in book.traded ==> book.Traded(s) <= later.Traded(s)
  }

  lemma {:induction false} GrowsEverywhere(book: Book, later: Book, s: Strategy)
    requires Grows(book, later)
    ensures book.Traded(s) <= later.Traded(s)
  {
  }

  lemma {:induction false} ResolveOrderBlocks(w: World, bar: Bar, data: LaneData, lane: Lane, book: Book, a: Attempt)
    requires Blocks(w, data, lane, book, a) && Named(data, lane) && a.symbol == data.symbol
    requires lane.order.Some? ==> lane.order.value.quantity > 0.0
    requires !(lane.order.Some? && lane.position.Some?)
    ensures var o := ResolveOrder(w, bar, lane, book);
            Blocks(w, data, o.lane, o.book, a) && Named(data, o.lane)
  {
    hide FillPrice;
  }

  lemma {:induction false} CloseBlocks(
    w: World, bar: Bar, data: LaneData, lane: Lane, book: Book, blocks: Strategy, price: real, gain: real,
    reason: string, a: Attempt)
    requires Blocks(w, data, lane, book, a) && Named(data, lane) && a.symbol == data.symbol
    requires lane.position.Some? && lane.position.value.strategy == blocks
    requires bar == data.intraday[lane.cursor]
    ensures var o := Close(w, bar, lane, book, blocks, price, gain, reason);
            Blocks(w, data, o.lane, o.book, a)
  {
    hide Record;
  }

  lemma {:induction false} ResolveExitsBlocks(w: World, data: LaneData, lane: Lane, book: Book, a: Attempt)
    requires Blocks(w, data, lane, book, a) && Named(data, lane) && a.symbol == data.symbol
    ensures var o := ResolveExits(w, data.intraday[lane.cursor], lane, book);
            Blocks(w, data, o.lane, o.book, a)
  {
    hide Close, ApplySlippage, StopExitPrice, ProfitTargetPrice;
    if lane.position.Some? {
      var bar := data.intraday[lane.cursor];
      var p := lane.position.value.(highestPrice := Max(lane.position.value.highestPrice, bar.high));
      var marked := lane.(position := Some(p));
      var stopped := StopExitPrice(bar, p, w.settings.slippageBps);
      var reached := ApplySlippage(ProfitTargetPrice(p, w.settings.profitTargetR), false, w.settings.slippageBps);
      CloseBlocks(w, bar, data, marked, book, p.strategy, stopped, p.Gain(stopped), "stop", a);
      CloseBlocks(w, bar, data, marked, book, p.strategy, reached, p.Gain(reached), "profit_target", a);
    }
  }

  lemma {:induction false} ResolveBlocks(w: World, data: LaneData, lane: Lane, book: Book, a: Attempt)
    requires Blocks(w, data, lane, book, a) && a.symbol == data.symbol
    requires LaneOk(w, data, lane, true)
    ensures var o := ResolveLane(w, data.intraday[lane.cursor], lane, book);
            Blocks(w, data, o.lane, o.book, a)
  {
    var bar := data.intraday[lane.cursor];
    hide Blocks, ResolveOrder, ResolveExits;
    var o := ResolveOrder(w, bar, lane, book);
    ResolveOrderBlocks(w, bar, data, lane, book, a);
    CursorStays(w, bar, lane, book);
    ResolveExitsBlocks(w, data, o.lane, o.book, a);
  }

  lemma {:induction false} ResolveOrderGrows(w: World, bar: Bar, lane: Lane, book: Book)
    ensures var o := ResolveOrder(w, bar, lane, book);
            Grows(book, o.book) && o.book.placed == book.placed && (o.lane.Busy() ==> lane.Busy())
  {
    hide FillPrice;
  }

  lemma {:induction false} ResolveExitsGrows(w: World, bar: Bar, lane: Lane, book: Book)
    ensures var o := ResolveExits(w, bar, lane, book);
            Grows(book, o.book) && o.book.placed == book.placed && (o.lane.Busy() ==> lane.Busy())
  {
    hide ApplySlippage, StopExitPrice, ProfitTargetPrice, Record;
  }

  lemma {:induction false} ResolveGrows(w: World, bar: Bar, lane: Lane, book: Book)
    ensures var o := ResolveLane(w, bar, lane, book);
            Grows(book, o.book) && o.book.placed == book.placed && (o.lane.Busy() ==> lane.Busy())
  {
    hide ResolveOrder, ResolveExits;
    var o := ResolveOrder(w, bar, lane, book);
    ResolveOrderGrows(w, bar, lane, book);
    ResolveExitsGrows(w, bar, o.lane, o.book);
    forall s | s in book.traded ensures book.Traded(s) <= ResolveLane(w, bar, lane, book).book.Traded(s) {
      GrowsEverywhere(o.book, ResolveLane(w, bar, lane, book).book, s);
    }
  }

  lemma {:induction false} AdvanceBlocks(w: World, data: LaneData, lane: Lane, book: Book, a: Attempt)
    requires w.calendar.Valid() && Stamped(data.intraday)
    requires Blocks(w, data, lane, book, a) && lane.cursor + 1 < |data.intraday|
    ensures Blocks(w, data, lane.(cursor := lane.cursor + 1), book, a)
  {
    assert w.calendar.day(data.intraday[lane.cursor].timestamp)
        <= w.calendar.day(data.intraday[lane.cursor + 1].timestamp);
  }

  lemma {:induction false} ApplyBlocks(
    w: World, data: LaneData, lane: Lane, book: Book, moved: bool, strategy: Strategy, intent: Intent, a: Attempt)
    requires Blocks(w, data, lane, book, a) && Named(data, lane) && a.symbol == data.symbol
    requires intent.Exit? && lane.position.Some? ==> lane.position.value.strategy == strategy
    ensures var o := Apply(w, data, lane, book, moved, strategy, intent);
            Blocks(w, data, o.lane, o.book, a)
  {
    hide PlaceOrder, Close, EngineExitPrice, EngineExitGain;
    match intent
    case Entry(_, _, _, _, _, _, _, _) => PlaceFrame(w, data, lane, book, intent);
    case Exit(_, _, reason) =>
      if moved && lane.position.Some? {
        var bar, named := data.intraday[lane.cursor], if reason == "" then "eod_flatten" else reason;
        var price := EngineExitPrice(w, bar, lane.position.value);
        CloseBlocks(w, bar, data, lane, book, strategy, price, EngineExitGain(lane.position.value, price),
          if named == "eod_flatten" then "eod" else named, a);
      }
    case UpdateStop(_, _, _, _) =>
  }

  /** A newly placed attempt is blocked by its own order. */
  lemma {:induction false} PlacedBlocks(
    w: World, data: LaneData, lane: Lane, book: Book, strategy: Strategy, intent: Intent)
    requires EntryFor(data, lane, strategy, intent)
    ensures var o := PlaceOrder(w, data, lane, book, intent);
            var a := Attempt(strategy, data.symbol, w.calendar.day(data.intraday[lane.cursor].timestamp));
            && (o.book.placed == book.placed || o.book.placed == book.placed + [a])
            && (o.book.placed == book.placed + [a] ==> Blocks(w, data, o.lane, o.book, a) && !lane.Busy())
  {
    hide LastActive;
  }

  lemma {:induction false} ApplyGrows(
    w: World, data: LaneData, lane: Lane, book: Book, moved: bool, strategy: Strategy, intent: Intent)
    requires -1 <= lane.cursor < |data.intraday|
    ensures var o := Apply(w, data, lane, book, moved, strategy, intent);
            && Grows(book, o.book)
            && (o.book.placed == book.placed || (intent.Entry? && !lane.Busy()))
            && (o.lane.Busy() ==> lane.Busy() || intent.Entry?)
            && (o.lane.position.Some? ==>
               lane.position.Some? && o.lane.position.value.strategy == lane.position.value.strategy)
            && (!intent.Entry? ==> o.lane.order == lane.order)
            && (lane.position.None? || !intent.Exit? ==> o.book.traded == book.traded)
            && (forall s, x: Symbol, d: Day :: (x, d) in o.book.Traded(s) && (x, d) !in book.Traded(s)
                  ==> s == strategy && lane.position.Some? && x == lane.position.value.symbol)
  {
    hide PlaceOrder, EngineExitPrice, Record;
    if intent.Entry? {
      PlaceFrame(w, data, lane, book, intent);
    }
  }
}
