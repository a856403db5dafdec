/** The portfolio replay driven by the decision engine: the assumptions of the run theorems are met. */
module PortfolioEngine {
  import opened Domain
  import opened EngineTypes
  import opened Mechanics
  import opened Engine
  import opened Portfolio
  import opened PortfolioLane
  import opened PortfolioSafety
  import opened PortfolioRuns
  import opened PortfolioCausality
  import opened PortfolioClock
  import EngineStops

  /** Each strategy of the sequence is a cycle of the engine with its own signal evaluator. */
  ghost predicate EngineDriven(w: World, ind: Indicators, evaluators: seq<Evaluator>) {
    && w.settings.Valid() && w.calendar.Valid()
    && |evaluators| == |w.slots|
    && forall j :: 0 <= j < |w.slots| ==> RunsEngine(w, ind, evaluators[j], w.slots[j])
  }

  ghost predicate RunsEngine(w: World, ind: Indicators, evaluator: Evaluator, slot: Slot)
    requires w.settings.Valid()
  {
    && slot.name != ""
    && forall cycle :: slot.decide(cycle) == EvaluateCycle(w.settings, w.calendar, ind, evaluator, slot.name, cycle)
  }

  function EngineSlot(
    s: Settings, cal: Calendar, ind: Indicators, evaluator: Evaluator, name: Strategy, scale: real): Slot
    requires s.Valid()
  {
    Slot(name, scale, cycle => EvaluateCycle(s, cal, ind, evaluator, name, cycle))
  }

  lemma {:induction false} EngineSlotRuns(
    w: World, ind: Indicators, evaluator: Evaluator, name: Strategy, scale: real)
    requires w.settings.Valid() && name != ""
    ensures RunsEngine(w, ind, evaluator, EngineSlot(w.settings, w.calendar, ind, evaluator, name, scale))
  {
    hide EvaluateCycle;
  }

  /** A world whose named strategies are made from the engine, one evaluator each, is driven by it. */
  lemma {:induction false} EngineSlotsDrive(w: World, ind: Indicators, evaluators: seq<Evaluator>)
    requires w.settings.Valid() && w.calendar.Valid() && |evaluators| == |w.slots|
    requires forall j :: 0 <= j < |w.slots| ==>
      var slot := w.slots[j];
      slot.name != "" &&
      slot == EngineSlot(w.settings, w.calendar, ind, evaluators[j], slot.name, slot.equityScale)
    ensures EngineDriven(w, ind, evaluators)
  {
    hide RunsEngine, EngineSlot;
    forall j | 0 <= j < |w.slots| ensures RunsEngine(w, ind, evaluators[j], w.slots[j]) {
      EngineSlotRuns(w, ind, evaluators[j], w.slots[j].name, w.slots[j].equityScale);
    }
  }

  lemma {:induction false} EngineObeys(w: World, ind: Indicators, evaluator: Evaluator, slot: Slot)
    requires w.settings.Valid() && RunsEngine(w, ind, evaluator, slot) && AnswersAsked(evaluator)
    ensures SlotObeys(w, slot)
  {
    hide EvaluateCycle, Obeys, AnswersAsked, SymbolsUsable;
    forall cycle: CycleInput | SymbolsUsable(cycle) && slot.decide(cycle).Success?
      ensures Obeys(w.calendar, w.settings.maxOpenPositions, slot.name, cycle, slot.decide(cycle).value)
    {
      CycleObeys(w.settings, w.calendar, ind, evaluator, slot.name, cycle);
    }
  }

  lemma {:induction false} EngineIgnoresMarks(w: World, ind: Indicators, evaluator: Evaluator, slot: Slot)
    requires w.settings.Valid() && RunsEngine(w, ind, evaluator, slot)
    ensures IgnoresMarks(slot)
  {
    hide EvaluateCycle, Filtered;
    forall a: CycleInput, b: CycleInput | Filtered(a) == Filtered(b) ensures slot.decide(a) == slot.decide(b) {
      CleanMarksDoNotMatter(w.settings, w.calendar, ind, evaluator, slot.name, a, b);
    }
  }

  /** Replays of the engine satisfy everything the run theorems assume. */
  lemma {:induction false} EngineWorldIsUsable(w: World, ind: Indicators, evaluators: seq<Evaluator>)
    requires EngineDriven(w, ind, evaluators)
    requires forall j :: 0 <= j < |evaluators| ==> AnswersAsked(evaluators[j])
    requires OneLanePerSymbol(w.lanes)
    requires forall i :: 0 <= i < |w.lanes| ==> w.lanes[i].symbol != "" && Stamped(w.lanes[i].intraday)
    ensures Usable(w) && Causal(w)
  {
    hide RunsEngine, AnswersAsked, SlotObeys, IgnoresMarks, Stamped;
    forall j | 0 <= j < |w.slots| ensures SlotObeys(w, w.slots[j]) && IgnoresMarks(w.slots[j]) {
      assert RunsEngine(w, ind, evaluators[j], w.slots[j]) && AnswersAsked(evaluators[j]);
      EngineObeys(w, ind, evaluators[j], w.slots[j]);
      EngineIgnoresMarks(w, ind, evaluators[j], w.slots[j]);
    }
  }

  // ---------------------------------------------------------------- stops take effect

  /** Routing offers a held position the emitted stops one after the other. */
  lemma {:induction false} RoutedStops(
    w: World, st: State, moved: seq<bool>, strategy: Strategy, intents: seq<Intent>, n: nat, k: nat)
    requires Fits(w, st.lanes) && |moved| == |st.lanes| && n <= |intents| && OneLanePerSymbol(w.lanes)
    requires k < |w.lanes| && moved[k] && st.lanes[k].position.Some? && w.lanes[k].symbol != ""
    requires !EngineStops.HasExit(intents[..n], w.lanes[k].symbol)
    ensures var p, later := st.lanes[k].position.value, RouteAll(w, st, moved, strategy, intents, n).lanes[k].position;
            && later.Some?
            && later.value.quantity == p.quantity
            && later.value.stopPrice == Offered(
               p.quantity, p.stopPrice, EngineStops.StopsFor(intents[..n], w.lanes[k].symbol))
  {
    hide Route, EngineStops.HasExit, EngineStops.StopsFor, Offered, Tightens;
    var x := w.lanes[k].symbol;
    if n == 0 {
      assert intents[..0] == [];
      NothingOffered(st.lanes[k].position.value, x);
    } else {
      var intent, done := intents[n - 1], intents[..n - 1];
      EarlierExit(intents, n, x);
      RoutedStops(w, st, moved, strategy, intents, n - 1, k);
      RouteOneStop(w, RouteAll(w, st, moved, strategy, intents, n - 1), moved, strategy, intent, k);
      Shorter(intents, n);
      OfferOneMore(st.lanes[k].position.value, done, intents[..n], intent, x);
    }
  }

  lemma {:induction false} NothingOffered(p: Position, x: Symbol)
    ensures Offered(p.quantity, p.stopPrice, EngineStops.StopsFor([], x)) == p.stopPrice
  {
  }

  lemma {:induction false} Shorter(intents: seq<Intent>, n: nat)
    requires 0 < n <= |intents|
    ensures intents[..n] == intents[..n - 1] + [intents[n - 1]]
  {
  }

  lemma {:induction false} EarlierExit(intents: seq<Intent>, n: nat, x: Symbol)
    requires 0 < n <= |intents| && !EngineStops.HasExit(intents[..n], x)
    ensures !EngineStops.HasExit(intents[..n - 1], x) && !(intents[n - 1].Exit? && intents[n - 1].symbol == x)
  {
    assert intents[..n][n - 1] == intents[n - 1];
    assert forall i :: 0 <= i < n - 1 ==> intents[..n][i] == intents[..n - 1][i];
  }

  lemma {:induction false} OfferOneMore(p: Position, done: seq<Intent>, more: seq<Intent>, intent: Intent, x: Symbol)
    requires more == done + [intent]
    ensures var before := Offered(p.quantity, p.stopPrice, EngineStops.StopsFor(done, x));
            Offered(p.quantity, p.stopPrice, EngineStops.StopsFor(more, x))
            == if intent.UpdateStop? && intent.symbol == x && Tightens(p.quantity, before, intent.stopPrice)
               then intent.stopPrice else before
  {
    assert more[..|more| - 1] == done;
    var stops := EngineStops.StopsFor(done, x);
    if intent.UpdateStop? && intent.symbol == x {
      assert (stops + [intent.stopPrice])[..|stops|] == stops;
    }
  }

  lemma {:induction false} RouteOneStop(
    w: World, st: State, moved: seq<bool>, strategy: Strategy, intent: Intent, k: nat)
    requires Fits(w, st.lanes) && |moved| == |st.lanes| && OneLanePerSymbol(w.lanes)
    requires k < |w.lanes| && moved[k] && st.lanes[k].position.Some? &&
      !(intent.Exit? && intent.symbol == w.lanes[k].symbol)
    ensures var p, later := st.lanes[k].position.value, Route(w, st, moved, strategy, intent).lanes[k].position;
            && later.Some?
            && later.value.quantity == p.quantity
            && later.value.stopPrice
               == if intent.UpdateStop? && intent.symbol == w.lanes[k].symbol &&
                  Tightens(p.quantity, p.stopPrice, intent.stopPrice)
                  then intent.stopPrice else p.stopPrice
  {
    hide EngineExit, LastActive, NewOrder;
    IndexOf(w.lanes, k);
  }

  lemma {:induction false} OwnPositionsDistinct(w: World, st: State, name: Strategy)
    requires OneLanePerSymbol(w.lanes) && Quiet(w, st.lanes)
    ensures EngineStops.DistinctSymbols(OfStrategy(Positions(st.lanes), name))
  {
    hide OrderOk;
    PositionsDistinct(w, st.lanes, |st.lanes|);
    assert st.lanes[..|st.lanes|] == st.lanes;
    SomeDistinct(Positions(st.lanes), name);
  }

  lemma {:induction false} PositionsDistinct(w: World, lanes: seq<Lane>, n: nat)
    requires OneLanePerSymbol(w.lanes) && Quiet(w, lanes) && n <= |lanes|
    ensures EngineStops.DistinctSymbols(Positions(lanes[..n]))
  {
    hide OrderOk;
    if n > 0 {
      PositionsDistinct(w, lanes, n - 1);
      assert lanes[..n][..n - 1] == lanes[..n - 1] && lanes[..n][n - 1] == lanes[n - 1];
      var rest := Positions(lanes[..n - 1]);
      assert LaneOk(w, w.lanes[n - 1], lanes[n - 1], false);
      forall i | 0 <= i < |rest| ensures rest[i].symbol != w.lanes[n - 1].symbol {
        assert rest[i] in rest;
        var m :| 0 <= m < n - 1 && lanes[..n - 1][m].position == Some(rest[i]);
        assert LaneOk(w, w.lanes[m], lanes[m], false);
      }
    }
  }

  lemma {:induction false} NotLast(positions: seq<Position>, p: Position)
    requires EngineStops.DistinctSymbols(positions) && positions != [] && p in positions[..|positions| - 1]
    ensures p.symbol != positions[|positions| - 1].symbol
  {
    var m :| 0 <= m < |positions| - 1 && positions[..|positions| - 1][m] == p;
    assert positions[m] == p;
  }

  lemma {:induction false} SomeDistinct(positions: seq<Position>, name: Strategy)
    requires EngineStops.DistinctSymbols(positions)
    ensures EngineStops.DistinctSymbols(OfStrategy(positions, name))
  {
    if positions != [] {
      var n := |positions| - 1;
      SomeDistinct(positions[..n], name);
      var rest := OfStrategy(positions[..n], name);
      forall i | 0 <= i < |rest| ensures rest[i].symbol != positions[n].symbol {
        assert rest[i] in rest;
        NotLast(positions, rest[i]);
      }
    }
  }

  lemma {:induction false} OwnPositionListed(w: World, st: State, now: int, slot: Slot, k: nat)
    requires Usable(w) && Quiet(w, st.lanes) && Fits(w, st.lanes)
    requires k < |w.lanes| && st.lanes[k].position.Some? && st.lanes[k].position.value.strategy == slot.name
    ensures st.lanes[k].position.value.symbol == w.lanes[k].symbol != ""
    ensures st.lanes[k].position.value in CycleFor(w, st, now, slot).positions
    ensures EngineStops.DistinctSymbols(CycleFor(w, st, now, slot).positions)
  {
    hide ByEligible, Contexts, EligibleSymbols, DailyBefore, Positions, OfStrategy, SymbolsOf, SlotObeys;
    assert LaneOk(w, w.lanes[k], st.lanes[k], false);
    assert CycleFor(w, st, now, slot).positions == OfStrategy(Positions(st.lanes), slot.name);
    OwnPositionsDistinct(w, st, slot.name);
  }

  /** After a strategy's cycle a position that was not closed stands at the tightest stop its passes emitted. */
  lemma {:induction false} CycleStopsTakeEffect(
    w: World, ind: Indicators, evaluator: Evaluator, slot: Slot, st: State, now: int, moved: seq<bool>, k: nat)
    requires Usable(w) && Quiet(w, st.lanes) && Fits(w, st.lanes) && |moved| == |st.lanes|
    requires RunsEngine(w, ind, evaluator, slot)
    requires k < |w.lanes| && moved[k] && st.lanes[k].position.Some? && st.lanes[k].position.value.strategy == slot.name
    requires slot.decide(CycleFor(w, st, now, slot)).Success?
    requires !EngineStops.HasExit(slot.decide(CycleFor(w, st, now, slot)).value, w.lanes[k].symbol)
    ensures var cycle := CycleFor(w, st, now, slot);
            var intents := slot.decide(cycle).value;
            var p, later := st.lanes[k].position.value,
              RouteAll(w, st, moved, slot.name, intents, |intents|).lanes[k].position;
            later.Some? && later.value.stopPrice
                           == EngineStops.StopInForce(
                              EngineStops.PositionIntents(w.settings, w.calendar, ind, Filtered(cycle)), p)
  {
    hide CycleFor, EvaluateCycle, RouteAll, SlotObeys, Quiet, EngineStops.PositionIntents;
    var cycle, p := CycleFor(w, st, now, slot), st.lanes[k].position.value;
    var intents := slot.decide(cycle).value;
    assert EvaluateCycle(w.settings, w.calendar, ind, evaluator, slot.name, cycle) == slot.decide(cycle);
    OwnPositionListed(w, st, now, slot, k);
    var m: nat :| m < |cycle.positions| && cycle.positions[m] == p;
    SortedStopsSettle(w.settings, w.calendar, ind, evaluator, slot.name, cycle, m);
    WholeCycle(intents);
    RoutedStops(w, st, moved, slot.name, intents, |intents|, k);
  }

  lemma {:induction false} WholeCycle(intents: seq<Intent>)
    ensures intents[..|intents|] == intents
  {
  }
}
