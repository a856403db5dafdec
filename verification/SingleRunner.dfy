/** The single-symbol runner itself (replay/runner.py): its state updated in place, bar by bar. */
module SingleRunner {
  import opened Numbers
  import opened Domain
  import opened EngineTypes
  import opened Mechanics
  import opened SingleReplay
  import Portfolio

  class ReplayState {
    const sc: Scenario
    var equity: real
    var workingOrder: Option<Order>
    var position: Option<Position>
    var tradedSymbols: set<(Symbol, Day)>
    var events: seq<Event>

    constructor (sc: Scenario)
      ensures this.sc == sc && View() == AfterBars(sc, 0)
    {
      this.sc := sc;
      equity, workingOrder, position, tradedSymbols, events := sc.startingEquity, None, None, {}, [];
    }

    function View(): Replay
      reads this
    {
      Replay(equity, workingOrder, position, tradedSymbols, events, false)
    }

    method ProcessExistingOrder(bar: Bar)
      modifies this
      ensures View() == ProcessOrder(sc.settings, bar, old(View()))
    {
      if workingOrder.None? || bar.timestamp < workingOrder.value.activeTimestamp {
        return;
      }
      var order := workingOrder.value;
      if bar.timestamp > order.lastActiveTimestamp {
        events := events + [OrderExpired(order.symbol, bar.timestamp, order.stopPrice, order.limitPrice)];
        workingOrder := None;
        return;
      }
      var raw := BuyStopLimitFill(bar, order.stopPrice, order.limitPrice);
      if raw.None? {
        if bar.timestamp >= order.lastActiveTimestamp {
          events := events + [OrderExpired(order.symbol, bar.timestamp, order.stopPrice, order.limitPrice)];
          workingOrder := None;
        }
        return;
      }
      var price := EntryFillPrice(raw.value, order.limitPrice, sc.settings.slippageBps);
      position := Some(Portfolio.Filled(order, bar, price));
      events := events + [EntryFilled(
        order.symbol, bar.timestamp, price, order.initialStopPrice, order.quantity, order.strategy)];
      workingOrder := None;
    }

    method LeavePosition(bar: Bar, price: real, event: Event)
      requires position.Some?
      modifies this
      ensures View() == Leave(sc.calendar, bar, old(View()), price, event)
    {
      hide Position.Gain;
      var p := position.value;
      events := events + [event];
      equity := equity + p.Gain(price);
      tradedSymbols := tradedSymbols + {(p.symbol, sc.calendar.day(bar.timestamp))};
      position := None;
    }

    method ProcessStopHit(bar: Bar) returns (hit: bool)
      modifies this
      ensures var marked := Marked(bar, old(View()));
              && hit == StopIsHit(bar, marked)
              && View() == if hit then LeaveAtStop(sc, bar, marked) else marked
    {
      if position.None? {
        return false;
      }
      position := Some(position.value.(highestPrice := Max(position.value.highestPrice, bar.high)));
      hit := bar.low <= position.value.stopPrice;
      if hit {
        var price := StopExitPrice(bar, position.value, sc.settings.slippageBps);
        LeavePosition(bar, price, StopHit(position.value.symbol, bar.timestamp, Round(price, CENT)));
      }
    }

    method ProcessProfitTargetHit(bar: Bar) returns (hit: bool)
      requires sc.settings.enableProfitTarget
      modifies this
      ensures hit == TargetIsHit(sc.settings, bar, old(View()))
      ensures View() == if hit then LeaveAtTarget(sc, bar, old(View())) else old(View())
    {
      if position.None? {
        return false;
      }
      var target := ProfitTargetPrice(position.value, sc.settings.profitTargetR);
      hit := bar.high >= target;
      if hit {
        var price := ApplySlippage(target, false, sc.settings.slippageBps);
        LeavePosition(bar, price, TargetHit(position.value.symbol, bar.timestamp, Round(price, CENT)));
      }
    }

    method HandleEodExit(bar: Bar, reason: string)
      modifies this
      ensures View() == LeaveAtClose(sc, bar, old(View()), reason)
    {
      if position.Some? {
        var price := CloseExitPrice(bar, sc.settings.slippageBps);
        LeavePosition(bar, price,
          EodExit(position.value.symbol, bar.timestamp, Round(price, CENT),
            if reason == "" then "eod_flatten" else reason));
      }
    }

    method HandleStopUpdate(bar: Bar, stop: real)
      modifies this
      ensures View() == MoveStopTo(bar, old(View()), stop)
    {
      if position.Some? && ShouldUpdateStop(position.value, stop) {
        position := Some(position.value.(stopPrice := stop, trailingActive := true));
        events := events + [StopUpdated(position.value.symbol, bar.timestamp, stop)];
      }
    }

    /** An entry becomes an order for the next bar; one without stop prices raises. */
    method HandleEntry(index: nat, intent: Intent) returns (raised: bool)
      requires intent.Entry? && index < |sc.bars|
      modifies this
      ensures View().(raised := raised) == Place(sc, index, old(View()), intent)
    {
      hide Portfolio.LastActive;
      raised := false;
      var next := index + 1;
      if next >= |sc.bars| {
        return;
      }
      if position.Some? || workingOrder.Some? {
        return;
      }
      var expiresAt := Portfolio.LastActive(sc.settings, sc.calendar, sc.bars, next);
      if expiresAt.None? {
        return;
      }
      if intent.stop.None? || intent.initialStop.None? {
        return true;
      }
      workingOrder := Some(Order(
        intent.symbol, intent.timestamp, sc.bars[next].timestamp, expiresAt.value,
        intent.stop.value, intent.limit, intent.initialStop.value, intent.quantity,
        if intent.strategy != "" then intent.strategy else sc.strategy, None));
      events := events + [OrderPlaced(
        intent.symbol, sc.bars[index].timestamp, intent.stop.value, intent.limit, intent.initialStop.value)];
    }

    method HandleIntents(index: nat, intents: seq<Intent>) returns (raised: bool)
      requires index < |sc.bars|
      modifies this
      ensures var after := HandleAll(sc, index, old(View()), intents, |intents|);
              raised == after.raised && (!raised ==> View() == after)
    {
      hide Place, LeaveAtClose, MoveStopTo;
      raised := false;
      for n := 0 to |intents|
        invariant View() == HandleAll(sc, index, old(View()), intents, n)
      {
        match intents[n] {
          case Entry(_, _, _, _, _, _, _, _) =>
            raised := HandleEntry(index, intents[n]);
            if raised {
              HandleAllSticks(sc, index, old(View()), intents, n + 1, |intents|);
              return;
            }
          case Exit(_, _, reason) => HandleEodExit(sc.bars[index], reason);
          case UpdateStop(_, _, stop, _) => HandleStopUpdate(sc.bars[index], stop);
        }
      }
    }

    /** One bar: order, stop, target, then the engine. */
    method ProcessBar(index: nat) returns (raised: bool)
      requires index < |sc.bars|
      modifies this
      ensures var after := OnBar(sc, index, old(View()));
              raised == after.raised && (!raised ==> View() == after)
    {
      hide ProcessOrder, Marked, LeaveAtStop, LeaveAtTarget, CycleOn, HandleAll;
      var bar := sc.bars[index];
      raised := false;
      NeverRaises(sc, bar, View());
      ProcessExistingOrder(bar);
      NeverRaises(sc, bar, View());
      var stopped := ProcessStopHit(bar);
      if stopped {
        return;
      }
      if sc.settings.enableProfitTarget {
        var reached := ProcessProfitTargetHit(bar);
        if reached {
          return;
        }
      }
      var intents := sc.decide(CycleOn(sc, index, View()));
      if intents.Failure? {
        return true;
      }
      raised := HandleIntents(index, intents.value);
    }

    /** The whole run: the log, or nothing if an exception ended it. */
    method Run() returns (result: Result<seq<Event>>)
      requires View() == AfterBars(sc, 0)
      modifies this
      ensures var last := AfterBars(sc, |sc.bars|);
              result == if last.raised then Failure else Success(last.events)
    {
      hide OnBar;
      for n := 0 to |sc.bars|
        invariant View() == AfterBars(sc, n)
      {
        var raised := ProcessBar(n);
        if raised {
          AfterBarsStick(sc, n + 1, |sc.bars|);
          return Failure;
        }
      }
      return Success(events);
    }
  }

  lemma {:induction false} NeverRaises(sc: Scenario, bar: Bar, r: Replay)
    ensures ProcessOrder(sc.settings, bar, r).raised == r.raised
    ensures Marked(bar, r).raised == r.raised
    ensures r.position.Some? ==>
      LeaveAtStop(sc, bar, r).raised == r.raised && LeaveAtTarget(sc, bar, r).raised == r.raised
  {
    hide BuyStopLimitFill, EntryFillPrice, StopExitPrice, ApplySlippage, ProfitTargetPrice, Round;
  }

  lemma {:induction false} HandleAllSticks(sc: Scenario, index: nat, r: Replay, intents: seq<Intent>, n: nat, m: nat)
    requires index < |sc.bars| && n <= m <= |intents| && HandleAll(sc, index, r, intents, n).raised
    ensures HandleAll(sc, index, r, intents, m).raised
    decreases m
  {
    hide Portfolio.LastActive, CloseExitPrice, Round;
    if n < m {
      HandleAllSticks(sc, index, r, intents, n, m - 1);
    }
  }

  lemma {:induction false} OnBarSticks(sc: Scenario, index: nat, r: Replay)
    requires index < |sc.bars| && r.raised
    ensures OnBar(sc, index, r).raised
  {
    hide ProcessOrder, Marked, LeaveAtStop, LeaveAtTarget, CycleOn, HandleAll;
    var bar := sc.bars[index];
    var resolved := ProcessOrder(sc.settings, bar, r);
    NeverRaises(sc, bar, r);
    NeverRaises(sc, bar, resolved);
    var marked := Marked(bar, resolved);
    NeverRaises(sc, bar, marked);
    var intents := sc.decide(CycleOn(sc, index, marked));
    if intents.Success? {
      assert HandleAll(sc, index, marked, intents.value, 0) == marked
        by { NothingHandled(sc, index, marked, intents.value); }
      HandleAllSticks(sc, index, marked, intents.value, 0, |intents.value|);
    }
  }

  lemma {:induction false} NothingHandled(sc: Scenario, index: nat, r: Replay, intents: seq<Intent>)
    requires index < |sc.bars|
    ensures HandleAll(sc, index, r, intents, 0) == r
  {
  }

  lemma {:induction false} AfterBarsStick(sc: Scenario, n: nat, m: nat)
    requires n <= m <= |sc.bars| && AfterBars(sc, n).raised
    ensures AfterBars(sc, m).raised
    decreases m
  {
    hide OnBar;
    if n < m {
      AfterBarsStick(sc, n, m - 1);
      OnBarSticks(sc, m - 1, AfterBars(sc, m - 1));
    }
  }
}
