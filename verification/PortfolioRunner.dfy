/** The runner itself (replay/portfolio.py): lanes updated in place, proved against the functions of Portfolio. */
module PortfolioRunner {
  import opened Numbers
  import opened Domain
  import opened EngineTypes
  import opened Mechanics
  import opened OptionLedger
  import opened Sorting
  import opened Portfolio

  class SymbolLane {
    const data: LaneData
    var cursor: int
    var workingOrder: Option<Order>
    var position: Option<Position>

    constructor (data: LaneData)
      ensures this.data == data && View() == Lane(-1, None, None)
    {
      this.data := data;
      cursor, workingOrder, position := -1, None, None;
    }

    function View(): Lane
      reads this
    {
      Lane(cursor, workingOrder, position)
    }
  }

  // ---------------------------------------------------------------- exceptions last

  lemma {:induction false} ResolveSticks(w: World, bar: Bar, lane: Lane, book: Book)
    requires book.raised
    ensures ResolveLane(w, bar, lane, book).book.raised
  {
    hide FillPrice, ApplySlippage, StopExitPrice, ProfitTargetPrice, Record;
  }

  lemma {:induction false} ResolveLanesStick(w: World, st: State, moved: seq<bool>, n: nat)
    requires Fits(w, st.lanes) && |moved| == |st.lanes| && n <= |moved| && st.book.raised
    ensures ResolveLanes(w, st, moved, n).book.raised
  {
    hide ResolveLane;
    if n > 0 {
      ResolveLanesStick(w, st, moved, n - 1);
      var before := ResolveLanes(w, st, moved, n - 1);
      if moved[n - 1] && before.lanes[n - 1].cursor >= 0 {
        ResolveSticks(w, w.lanes[n - 1].intraday[before.lanes[n - 1].cursor], before.lanes[n - 1], before.book);
      }
    }
  }

  lemma {:induction false} ApplySticks(
    w: World, data: LaneData, lane: Lane, book: Book, moved: bool, strategy: Strategy, intent: Intent)
    requires -1 <= lane.cursor < |data.intraday| && book.raised
    ensures Apply(w, data, lane, book, moved, strategy, intent).book.raised
  {
    hide LastActive, NewOrder, EngineExitPrice, Record;
  }

  lemma {:induction false} RouteAllSticks(
    w: World, st: State, moved: seq<bool>, strategy: Strategy, intents: seq<Intent>, n: nat)
    requires Fits(w, st.lanes) && |moved| == |st.lanes| && n <= |intents| && st.book.raised
    ensures RouteAll(w, st, moved, strategy, intents, n).book.raised
  {
    hide Apply;
    if n > 0 {
      RouteAllSticks(w, st, moved, strategy, intents, n - 1);
      var before := RouteAll(w, st, moved, strategy, intents, n - 1);
      var k := LaneIndex(w.lanes, intents[n - 1].LaneSymbol());
      if k < |w.lanes| {
        ApplySticks(w, w.lanes[k], before.lanes[k], before.book, moved[k], strategy, intents[n - 1]);
      }
    }
  }

  lemma {:induction false} RunSlotsStick(w: World, st: State, now: int, moved: seq<bool>, n: nat)
    requires Fits(w, st.lanes) && |moved| == |st.lanes| && n <= |w.slots| && st.book.raised
    ensures RunSlots(w, st, now, moved, n).book.raised
  {
    hide CycleFor, RouteAll;
    if n > 0 {
      RunSlotsStick(w, st, now, moved, n - 1);
      var before, slot := RunSlots(w, st, now, moved, n - 1), w.slots[n - 1];
      var intents := slot.decide(CycleFor(w, before, now, slot));
      if intents.Success? {
        RouteAllSticks(w, before, moved, slot.name, intents.value, |intents.value|);
      }
    }
  }

  lemma {:induction false} TickSticks(w: World, st: State, now: int)
    requires Fits(w, st.lanes) && st.book.raised
    ensures Tick(w, st, now).book.raised
  {
    hide RunSlots, ResolveLanes, FreshLanes, Advance;
    ResolveLanesStick(w, State(Advance(w, st.lanes, now), st.book), FreshLanes(w, st.lanes, now), |st.lanes|);
    RunSlotsStick(w, Resolved(w, st, now), now, FreshLanes(w, st.lanes, now), |w.slots|);
  }

  /** An exception is never forgotten, so a run that has raised has failed. */
  lemma {:induction false} RaisedSticks(w: World, k: nat, m: nat)
    requires k <= m <= |Timeline(w)| && After(w, k).book.raised
    ensures After(w, m).book.raised
    decreases m
  {
    hide Timeline, Tick, Start;
    if k < m {
      RaisedSticks(w, k, m - 1);
      TickSticks(w, After(w, m - 1), Timeline(w)[m - 1]);
    }
  }

  lemma {:induction false} CountIsPrefix(cal: Calendar, daily: seq<Bar>, day: Day, n: nat)
    requires n <= |daily| && forall j :: 0 <= j < n ==> cal.day(daily[j].timestamp) < day
    requires n < |daily| ==> cal.day(daily[n].timestamp) >= day
    ensures DailyBefore(cal, daily, day) == daily[..n]
  {
    if n > 0 {
      CountIsPrefix(cal, daily[1..], day, n - 1);
      assert daily[..n] == [daily[0]] + daily[1..][..n - 1];
    }
  }

  // ---------------------------------------------------------------- the runner

  class PortfolioReplayRunner {
    const w: World
    const lanes: seq<SymbolLane>
    var dailySlices: map<(Symbol, Day), DailySeries>

    /** One lane object per symbol, carrying that symbol's bars. */
    ghost predicate Indexed() {
      && |lanes| == |w.lanes|
      && (forall i, j :: 0 <= i < j < |lanes| ==> lanes[i] != lanes[j] && w.lanes[i].symbol != w.lanes[j].symbol)
      && (forall i :: 0 <= i < |lanes| ==> lanes[i].data == w.lanes[i])
    }

    /** Cached slices are what the loop over the daily bars would compute. */
    ghost predicate CacheOk()
      reads this
    {
      forall i, day :: 0 <= i < |w.lanes| && (w.lanes[i].symbol, day) in dailySlices ==>
        dailySlices[(w.lanes[i].symbol, day)]
        == DailySeries(DailyBefore(w.calendar, w.lanes[i].daily, day), AllPositive(w.lanes[i].daily))
    }

    ghost predicate Valid()
      reads this, lanes
    {
      Indexed() && Fits(w, Views()) && CacheOk()
    }

    function Views(): (r: seq<Lane>)
      reads lanes
      ensures |r| == |lanes| && forall i :: 0 <= i < |r| ==> r[i] == lanes[i].View()
    {
      seq(|lanes|, i requires 0 <= i < |lanes| reads lanes => lanes[i].View())
    }

    constructor (w: World)
      requires forall i, j :: 0 <= i < j < |w.lanes| ==> w.lanes[i].symbol != w.lanes[j].symbol
      ensures this.w == w && Valid() && Views() == Start(w).lanes
    {
      var made := MakeLanes(w);
      this.w := w;
      lanes, dailySlices := made, map[];
    }

    static method MakeLanes(w: World) returns (made: seq<SymbolLane>)
      ensures fresh(made) && |made| == |w.lanes|
      ensures forall i, j :: 0 <= i < j < |made| ==> made[i] != made[j]
      ensures forall i :: 0 <= i < |made| ==> made[i].data == w.lanes[i] && made[i].View() == Lane(-1, None, None)
    {
      made := [];
      for i := 0 to |w.lanes|
        invariant |made| == i && fresh(made)
        invariant forall j, k :: 0 <= j < k < i ==> made[j] != made[k]
        invariant forall j :: 0 <= j < i ==> made[j].data == w.lanes[j] && made[j].View() == Lane(-1, None, None)
      {
        var lane := new SymbolLane(w.lanes[i]);
        made := made + [lane];
      }
    }

    /** The union of all bar close times, sorted. */
    method BuildTimeline() returns (timeline: seq<int>)
      ensures timeline == Timeline(w)
    {
      var stamps: seq<int> := [];
      for i := 0 to |w.lanes|
        invariant stamps == AllTimes(w, i)
      {
        var bars := w.lanes[i].intraday;
        ghost var before := stamps;
        for b := 0 to |bars|
          invariant stamps == before + CloseTimes(w, bars)[..b]
        {
          assert CloseTimes(w, bars)[..b + 1] == CloseTimes(w, bars)[..b] + [CloseTime(w, bars[b])];
          stamps := stamps + [CloseTime(w, bars[b])];
        }
        assert CloseTimes(w, bars)[..|bars|] == CloseTimes(w, bars);
      }
      timeline := SortedSet(stamps);
    }

    // -------------------------------------------------------------- one lane

    method ResolveWorkingOrder(lane: SymbolLane, bar: Bar, book: Book) returns (after: Book)
      modifies lane
      ensures Outcome(lane.View(), after) == ResolveOrder(w, bar, old(lane.View()), book)
    {
      after := book;
      if lane.workingOrder.None? || bar.timestamp < lane.workingOrder.value.activeTimestamp {
        return;
      }
      var order := lane.workingOrder.value;
      if bar.timestamp > order.lastActiveTimestamp {
        after := after.Block(order.strategy, order.symbol, w.calendar.day(order.signalTimestamp));
        lane.workingOrder := None;
        return;
      }
      var price := FillPrice(w, order, bar);
      if price.None? {
        if bar.timestamp >= order.lastActiveTimestamp {
          after := after.Block(order.strategy, order.symbol, w.calendar.day(order.signalTimestamp));
          lane.workingOrder := None;
        }
        return;
      }
      if order.optionSymbol.Some? && order.quantity <= 0.0 {
        lane.workingOrder := None;
        return;
      }
      var filled := Filled(order, bar, price.value);
      lane.position := Some(filled);
      lane.workingOrder := None;
      after := after.(fills := after.fills + [filled.AsFill()]);
    }

    method ClosePosition(
      lane: SymbolLane, bar: Bar, book: Book, blocks: Strategy, price: real, gain: real, reason: string)
      returns (after: Book)
      requires lane.position.Some?
      modifies lane
      ensures Outcome(lane.View(), after) == Close(w, bar, old(lane.View()), book, blocks, price, gain, reason)
    {
      hide Record;
      var p := lane.position.value;
      after := book.(equity := book.equity + gain,
                     trades := book.trades + [Record(p, bar.timestamp, price, reason)],
                     raised := book.raised || p.entryPrice == 0.0)
                   .Block(blocks, p.symbol, w.calendar.day(bar.timestamp));
      lane.position := None;
    }

    method ResolveOpenPosition(lane: SymbolLane, bar: Bar, book: Book) returns (after: Book)
      modifies lane
      ensures Outcome(lane.View(), after) == ResolveExits(w, bar, old(lane.View()), book)
    {
      hide Close;
      after := book;
      if lane.position.None? || lane.position.value.optionSymbol.Some? {
        return;
      }
      var p := lane.position.value.(highestPrice := Max(lane.position.value.highestPrice, bar.high));
      lane.position := Some(p);
      if bar.low <= p.stopPrice {
        var price := StopExitPrice(bar, p, w.settings.slippageBps);
        after := ClosePosition(lane, bar, book, p.strategy, price, p.Gain(price), "stop");
        return;
      }
      if w.settings.enableProfitTarget {
        var target := ProfitTargetPrice(p, w.settings.profitTargetR);
        if bar.high >= target {
          var price := ApplySlippage(target, false, w.settings.slippageBps);
          after := ClosePosition(lane, bar, book, p.strategy, price, p.Gain(price), "profit_target");
        }
      }
    }

    method PlaceWorkingOrder(lane: SymbolLane, book: Book, intent: Intent) returns (after: Book)
      requires intent.Entry? && -1 <= lane.cursor
      modifies lane
      ensures Outcome(lane.View(), after) == PlaceOrder(w, lane.data, old(lane.View()), book, intent)
    {
      after := book;
      if lane.position.Some? || lane.workingOrder.Some? {
        return;
      }
      if intent.underlying.Some? && w.ledger.None? {
        return;
      }
      var next := lane.cursor + 1;
      if next >= |lane.data.intraday| {
        return;
      }
      var expiresAt := LastActive(w.settings, w.calendar, lane.data.intraday, next);
      if expiresAt.None? {
        return;
      }
      var order := NewOrder(w, lane.data, next, expiresAt.value, intent);
      lane.workingOrder := Some(order);
      after := after.(placed :=
        after.placed + [Attempt(order.strategy, order.symbol, w.calendar.day(intent.timestamp))]);
    }

    method ApplyIntent(lane: SymbolLane, book: Book, moved: bool, strategy: Strategy, intent: Intent)
      returns (after: Book)
      requires -1 <= lane.cursor < |lane.data.intraday|
      modifies lane
      ensures Outcome(lane.View(), after) == Apply(w, lane.data, old(lane.View()), book, moved, strategy, intent)
    {
      hide PlaceOrder, Close, EngineExitPrice, EngineExitGain;
      after := book;
      match intent
      case Entry(_, _, _, _, _, _, _, _) =>
        after := PlaceWorkingOrder(lane, book, intent);
      case Exit(_, _, reason) =>
        if moved && lane.cursor >= 0 && lane.position.Some? {
          var bar, named := lane.data.intraday[lane.cursor], if reason == "" then "eod_flatten" else reason;
          var price := EngineExitPrice(w, bar, lane.position.value);
          var gain := EngineExitGain(lane.position.value, price);
          after := ClosePosition(
            lane, bar, book, strategy, price, gain, if named == "eod_flatten" then "eod" else named);
        }
      case UpdateStop(_, _, stop, _) =>
        if moved && lane.position.Some? && ShouldUpdateStop(lane.position.value, stop) {
          lane.position := Some(lane.position.value.(stopPrice := stop, trailingActive := true));
        }
    }

    // -------------------------------------------------------------- all lanes

    /** Move a lane on if its next bar closes now. */
    method AdvanceOne(i: nat, now: int) returns (moved: bool)
      requires Indexed() && i < |lanes| && Fits(w, Views())
      modifies lanes[i]
      ensures var was := old(Views());
              && moved == IsFresh(w, w.lanes[i], was[i], now)
              && (moved ==> was[i].cursor + 1 < |w.lanes[i].intraday|)
              && Views() == was[i := if moved then was[i].(cursor := was[i].cursor + 1) else was[i]]
    {
      var lane := lanes[i];
      assert lane.View() == Views()[i];
      var next := lane.cursor + 1;
      moved := next < |lane.data.intraday| && CloseTime(w, lane.data.intraday[next]) == now;
      if moved {
        lane.cursor := next;
      }
      OthersStay(i);
    }

    /** Changing one lane object changes one lane of the view. */
    twostate lemma OthersStay(i: nat)
      requires Indexed() && i < |lanes|
      requires forall j :: 0 <= j < |lanes| && j != i ==> unchanged(lanes[j])
      ensures Views() == old(Views())[i := lanes[i].View()]
    {
    }

    /** Move every lane whose next bar closes now. */
    method AdvanceLanes(now: int) returns (moved: seq<bool>)
      requires Valid()
      modifies lanes
      ensures Valid() && Views() == Advance(w, old(Views()), now) && moved == FreshLanes(w, old(Views()), now)
    {
      hide IsFresh, CacheOk, Views;
      ghost var was := Views();
      moved := [];
      for i := 0 to |lanes|
        invariant CacheOk() && |moved| == i && |Views()| == |was|
        invariant forall j :: 0 <= j < i ==> moved[j] == IsFresh(w, w.lanes[j], was[j], now)
        invariant forall j :: 0 <= j < i ==>
          Views()[j] == if IsFresh(w, w.lanes[j], was[j], now) then was[j].(cursor := was[j].cursor + 1) else was[j]
        invariant forall j :: i <= j < |was| ==> Views()[j] == was[j]
        invariant Fits(w, Views())
      {
        var reached := AdvanceOne(i, now);
        moved := moved + [reached];
      }
    }

    method ResolveOne(i: nat, moved: bool, book: Book) returns (after: Book)
      requires Indexed() && i < |lanes| && Fits(w, Views())
      modifies lanes[i]
      ensures var was := State(old(Views()), book);
              State(Views(), after)
              == if !moved || was.lanes[i].cursor < 0 then was
                 else
                   var o := ResolveLane(w, w.lanes[i].intraday[was.lanes[i].cursor], was.lanes[i], book);
                   State(was.lanes[i := o.lane], o.book)
    {
      hide ResolveOrder, ResolveExits;
      var lane := lanes[i];
      after := book;
      assert lane.View() == Views()[i];
      if moved && lane.cursor >= 0 {
        var bar := lane.data.intraday[lane.cursor];
        after := ResolveWorkingOrder(lane, bar, after);
        after := ResolveOpenPosition(lane, bar, after);
      }
      OthersStay(i);
    }

    /** Fills and exits of the fresh lanes, in lane order. */
    method ResolveFresh(moved: seq<bool>, book: Book) returns (after: Book)
      requires Valid() && |moved| == |lanes|
      modifies lanes
      ensures Valid() && State(Views(), after) == ResolveLanes(w, State(old(Views()), book), moved, |moved|)
    {
      hide ResolveLane, CacheOk, Indexed, Views;
      ghost var was := State(Views(), book);
      after := book;
      for i := 0 to |lanes|
        invariant CacheOk() && State(Views(), after) == ResolveLanes(w, was, moved, i)
      {
        after := ResolveOne(i, moved[i], after);
      }
    }

    method ApplyOne(i: nat, book: Book, moved: bool, strategy: Strategy, intent: Intent) returns (after: Book)
      requires Indexed() && i < |lanes| && -1 <= lanes[i].cursor < |w.lanes[i].intraday|
      modifies lanes[i]
      ensures var was := old(Views());
              var o := Apply(w, w.lanes[i], was[i], book, moved, strategy, intent);
              Views() == was[i := o.lane] && after == o.book
    {
      hide Apply;
      assert lanes[i].View() == Views()[i];
      after := ApplyIntent(lanes[i], book, moved, strategy, intent);
      OthersStay(i);
    }

    /** One strategy's intents, each routed to its lane. */
    method RouteIntents(moved: seq<bool>, book: Book, strategy: Strategy, intents: seq<Intent>) returns (after: Book)
      requires Valid() && |moved| == |lanes|
      modifies lanes
      ensures Valid() && State(Views(), after)
        == RouteAll(w, State(old(Views()), book), moved, strategy, intents, |intents|)
    {
      hide Route, CacheOk, Views, Indexed;
      ghost var was := State(Views(), book);
      after := book;
      for n := 0 to |intents|
        invariant CacheOk() && State(Views(), after) == RouteAll(w, was, moved, strategy, intents, n)
      {
        after := RouteIntent(moved, after, strategy, intents[n]);
      }
    }

    method RouteIntent(moved: seq<bool>, book: Book, strategy: Strategy, intent: Intent) returns (after: Book)
      requires Indexed() && Fits(w, Views()) && |moved| == |lanes|
      modifies lanes
      ensures State(Views(), after) == Route(w, State(old(Views()), book), moved, strategy, intent)
    {
      hide Apply, Views;
      after := book;
      var k := LaneIndex(w.lanes, intent.LaneSymbol());
      if k < |w.lanes| {
        assert lanes[k].View() == Views()[k];
        after := ApplyOne(k, book, moved[k], strategy, intent);
      }
    }

    // -------------------------------------------------------------- what the strategies see

    /** _daily_slice_for: count the daily bars dated before the day, once per symbol and day. */
    method DailySliceFor(i: nat, day: Day) returns (slice: DailySeries)
      requires Indexed() && CacheOk() && i < |w.lanes|
      modifies this`dailySlices
      ensures CacheOk()
      ensures slice == DailySeries(DailyBefore(w.calendar, w.lanes[i].daily, day), AllPositive(w.lanes[i].daily))
    {
      hide DailyBefore, AllPositive;
      var data := w.lanes[i];
      if (data.symbol, day) in dailySlices {
        return dailySlices[(data.symbol, day)];
      }
      var n := CountBefore(w.calendar, data.daily, day);
      slice := DailySeries(data.daily[..n], AllPositive(data.daily));
      dailySlices := dailySlices[(data.symbol, day) := slice];
    }

    static method CountBefore(cal: Calendar, daily: seq<Bar>, day: Day) returns (n: nat)
      ensures n <= |daily| && daily[..n] == DailyBefore(cal, daily, day)
    {
      hide DailyBefore;
      n := 0;
      while n < |daily| && cal.day(daily[n].timestamp) < day
        invariant n <= |daily| && forall j :: 0 <= j < n ==> cal.day(daily[j].timestamp) < day
      {
        n := n + 1;
      }
      CountIsPrefix(cal, daily, day, n);
    }

    /** The daily bars each symbol with a completed bar may see. */
    method CollectDaily(now: int) returns (daily: map<Symbol, DailySeries>)
      requires Valid()
      modifies this`dailySlices
      ensures Valid()
      ensures daily == DailySeen(w, Views(), w.calendar.day(now))
    {
      hide CacheOk, DailyBefore, AllPositive, Views;
      daily := map[];
      var today, views := w.calendar.day(now), Views();
      for i := 0 to |lanes|
        invariant CacheOk()
        invariant daily == ByEligible(w.lanes[..i], views[..i], (data: LaneData, lane: Lane) =>
                    DailySeries(DailyBefore(w.calendar, data.daily, today), AllPositive(data.daily)))
      {
        OneMoreLane(w.lanes, views, i);
        if lanes[i].cursor >= 0 {
          var slice := DailySliceFor(i, today);
          daily := daily[lanes[i].data.symbol := slice];
        }
      }
      AllTheLanes(w.lanes, views);
    }

    /** The completed bars of each symbol, the option chains on record at its latest close, and the symbols in order. */
    method CollectBars()
      returns (intraday: map<Symbol, seq<Bar>>, chains: map<Symbol, Option<Snapshot>>, symbols: seq<Symbol>)
      requires Valid()
      ensures intraday == ByEligible(w.lanes, Views(), Completed)
      ensures chains == ByEligible(w.lanes, Views(), (data: LaneData, lane: Lane) => ChainsSeen(w, data, lane))
      ensures symbols == SortBy(EligibleSymbols(w.lanes, Views()), Less)
    {
      hide CacheOk, ChainsSeen, Views;
      intraday, chains, symbols := map[], map[], [];
      var views := Views();
      for i := 0 to |lanes|
        invariant intraday == ByEligible(w.lanes[..i], views[..i], Completed)
        invariant chains == ByEligible(
          w.lanes[..i], views[..i], (data: LaneData, lane: Lane) => ChainsSeen(w, data, lane))
        invariant symbols == EligibleSymbols(w.lanes[..i], views[..i])
      {
        OneMoreLane(w.lanes, views, i);
        var lane := lanes[i];
        if lane.cursor >= 0 {
          intraday := intraday[lane.data.symbol := lane.data.intraday[..lane.cursor + 1]];
          chains := chains[lane.data.symbol := ChainsSeen(w, lane.data, lane.View())];
          symbols := symbols + [lane.data.symbol];
        }
      }
      AllTheLanes(w.lanes, views);
      symbols := SortBy(symbols, Less);
    }

    method CollectMarket(now: int) returns (market: Market)
      requires Valid()
      modifies this`dailySlices
      ensures Valid() && market == MarketSeen(w, Views(), w.calendar.day(now))
    {
      hide CacheOk, ByEligible, EligibleSymbols, DailySeen;
      var daily := CollectDaily(now);
      var intraday, chains, symbols := CollectBars();
      market := Market(intraday, daily, chains, symbols);
    }

    // -------------------------------------------------------------- ticks

    /** The strategies in sequence; the market is collected once, positions and orders anew for each strategy. */
    method RunStrategies(now: int, moved: seq<bool>, book: Book) returns (after: Book)
      requires Valid() && |moved| == |lanes|
      modifies lanes, this`dailySlices
      ensures Valid() && State(Views(), after) == RunSlots(w, State(old(Views()), book), now, moved, |w.slots|)
    {
      hide CacheOk, Views, RouteAll, Assemble, Indexed, MarketSeen;
      ghost var was := State(Views(), book);
      var market := CollectMarket(now);
      after := book;
      for j := 0 to |w.slots|
        invariant Indexed() && CacheOk() && State(Views(), after) == RunSlots(w, was, now, moved, j)
      {
        var slot, st := w.slots[j], State(Views(), after);
        MarketByCursor(w, was.lanes, st.lanes, w.calendar.day(now));
        var intents := slot.decide(Assemble(w, st, now, slot, market));
        if intents.Failure? {
          after := after.(raised := true);
        } else {
          after := RouteIntents(moved, after, slot.name, intents.value);
        }
      }
    }

    method RunTick(now: int, book: Book) returns (after: Book)
      requires Valid()
      modifies lanes, this`dailySlices
      ensures Valid() && State(Views(), after) == Tick(w, State(old(Views()), book), now)
    {
      hide CacheOk, Views, ResolveLanes, RunSlots, Advance, FreshLanes, Indexed;
      var moved := AdvanceLanes(now);
      after := ResolveFresh(moved, book);
      if true in moved {
        after := RunStrategies(now, moved, after);
      }
    }

    /** The whole run; an exception ends it without a result. */
    method Replay() returns (result: Result<seq<Trade>>)
      requires Valid() && Views() == Start(w).lanes
      modifies lanes, this`dailySlices
      ensures result == Run(w)
    {
      hide CacheOk, Views, Tick, Indexed, Timeline;
      var timeline := BuildTimeline();
      var book := Start(w).book;
      for k := 0 to |timeline|
        invariant Valid() && State(Views(), book) == After(w, k) && !book.raised
      {
        book := RunTick(timeline[k], book);
        if book.raised {
          RaisedSticks(w, k + 1, |timeline|);
          return Failure;
        }
      }
      return Success(book.trades);
    }
  }

  lemma {:induction false} EligibleByCursor<V>(
    data: seq<LaneData>, a: seq<Lane>, b: seq<Lane>, f: (LaneData, Lane) -> V)
    requires |data| == |a| == |b| && forall i :: 0 <= i < |a| ==>
      a[i].cursor == b[i].cursor && f(data[i], a[i]) == f(data[i], b[i])
    ensures ByEligible(data, a, f) == ByEligible(data, b, f)
  {
    if data != [] {
      EligibleByCursor(data[..|data| - 1], a[..|data| - 1], b[..|data| - 1], f);
    }
  }

  lemma {:induction false} SymbolsByCursor(data: seq<LaneData>, a: seq<Lane>, b: seq<Lane>)
    requires |data| == |a| == |b| && forall i :: 0 <= i < |a| ==> a[i].cursor == b[i].cursor
    ensures EligibleSymbols(data, a) == EligibleSymbols(data, b)
  {
    if data != [] {
      SymbolsByCursor(data[..|data| - 1], a[..|data| - 1], b[..|data| - 1]);
    }
  }

  /** The market collected before the first strategy is still what the next one should see. */
  lemma {:induction false} MarketByCursor(w: World, a: seq<Lane>, b: seq<Lane>, today: Day)
    requires |a| == |b| == |w.lanes| && forall i :: 0 <= i < |a| ==> a[i].cursor == b[i].cursor
    ensures MarketSeen(w, a, today) == MarketSeen(w, b, today)
  {
    hide ByEligible, EligibleSymbols, DailyBefore, AllPositive, SortBy;
    EligibleByCursor(w.lanes, a, b, Completed);
    EligibleByCursor(w.lanes, a, b, (data: LaneData, lane: Lane) => ChainsSeen(w, data, lane));
    EligibleByCursor(w.lanes, a, b, (data: LaneData, lane: Lane) =>
      DailySeries(DailyBefore(w.calendar, data.daily, today), AllPositive(data.daily)));
    SymbolsByCursor(w.lanes, a, b);
  }

  lemma {:induction false} OneMoreLane(data: seq<LaneData>, lanes: seq<Lane>, i: nat)
    requires i < |data| == |lanes|
    ensures data[..i + 1][..i] == data[..i] && lanes[..i + 1][..i] == lanes[..i]
  {
  }

  lemma {:induction false} AllTheLanes(data: seq<LaneData>, lanes: seq<Lane>)
    ensures data[..|data|] == data && lanes[..|lanes|] == lanes
  {
  }
}
