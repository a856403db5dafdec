/** The invariants hold at every point of every run: after every tick, strategy and intent. */
module PortfolioRuns {
  import opened Collections
  import opened Domain
  import opened EngineTypes
  import opened Portfolio
  import opened PortfolioLane
  import opened PortfolioSafety
  import opened Engine
  import opened Sorting

  // ---------------------------------------------------------------- one strategy

  ghost predicate Obeying(w: World, st: State, now: int, slot: Slot, intents: seq<Intent>)
    requires Fits(w, st.lanes)
  {
    slot.name != "" && Obeys(w.calendar, w.settings.maxOpenPositions, slot.name, CycleFor(w, st, now, slot), intents)
  }

  lemma {:induction false} DecideObeys(w: World, st: State, now: int, j: nat)
    requires Usable(w) && Fits(w, st.lanes) && j < |w.slots|
    ensures var intents := w.slots[j].decide(CycleFor(w, st, now, w.slots[j]));
            intents.Success? ==> Obeying(w, st, now, w.slots[j], intents.value)
  {
    hide Obeys, CycleFor, SymbolsUsable;
    assert SlotObeys(w, w.slots[j]);
    CycleSymbols(w, st, now, w.slots[j]);
  }

  lemma {:induction false} ObeyingMeans(w: World, st: State, now: int, slot: Slot, intents: seq<Intent>)
    requires Inv(w, st) && Fits(w, st.lanes) && Obeying(w, st, now, slot, intents)
    ensures Quiet(w, st.lanes) && slot.name != ""
    ensures Obeys(w.calendar, w.settings.maxOpenPositions, slot.name, CycleFor(w, st, now, slot), intents)
  {
    hide Obeys, CycleFor;
  }

  lemma {:induction false} OneFurther(intents: seq<Intent>, n: nat)
    requires n < |intents|
    ensures intents[..n + 1] == intents[..n] + [intents[n]]
  {
  }

  lemma {:induction false} NothingRouted(w: World, st: State, name: Strategy)
    requires |st.lanes| == |w.lanes|
    ensures Routed(w, st, st, name, [])
  {
  }

  /** One more intent routed. */
  lemma {:induction false} RouteOne(
    w: World, was: State, st: State, now: int, moved: seq<bool>, slot: Slot, intents: seq<Intent>, n: nat)
    requires Usable(w) && Inv(w, was) && Fits(w, was.lanes) && Obeying(w, was, now, slot, intents)
    requires Quiet(w, st.lanes) && Fits(w, st.lanes) && |moved| == |st.lanes| && Reconciled(w, st) && AttemptsOk(w, st)
    requires n < |intents| && Routed(w, was, st, slot.name, intents[..n])
    ensures var after := Route(w, st, moved, slot.name, intents[n]);
            && Quiet(w, after.lanes) && Fits(w, after.lanes) && Reconciled(w, after) && AttemptsOk(w, after)
            && Routed(w, was, after, slot.name, intents[..n + 1])
  {
    hide Usable, Quiet, Reconciled, AttemptsOk, LaneRouted, EntryCount, BusyLanes, FindsLane, Obeying, Inv, CycleFor;
    var intent, done, name := intents[n], intents[..n], slot.name;
    var k := LaneIndex(w.lanes, intent.LaneSymbol());
    OneFurther(intents, n);
    EntryCountMore(done, intent);
    ApartSymbols(w);
    ObeyingMeans(w, was, now, slot, intents);
    if k < |w.lanes| {
      IntentFindsLane(w, was, st, now, slot, intents, n, k);
      RouteKeeps(w, st, moved, name, intent, k);
      RouteAttempts(w, st, moved, name, intent, k);
      RouteRoutes(w, was, st, moved, name, done, intent, k);
    } else {
      forall i | 0 <= i < |w.lanes|
        ensures LaneRouted(w.lanes[i], was.lanes[i], st.lanes[i], was.book, st.book, name, done + [intent])
      {
        RoutedNowhere(w.lanes[i], was.lanes[i], st.lanes[i], was.book, st.book, name, done, intent);
      }
    }
  }

  lemma {:induction false} RoutedNowhere(
    data: LaneData, was: Lane, lane: Lane, wasBook: Book, book: Book, name: Strategy, done: seq<Intent>, intent: Intent)
    requires LaneRouted(data, was, lane, wasBook, book, name, done)
    ensures LaneRouted(data, was, lane, wasBook, book, name, done + [intent])
  {
    if NoEntryFor(done + [intent], data.symbol) {
      assert forall m :: 0 <= m < |done| ==> (done + [intent])[m] == done[m];
    }
  }

  lemma {:induction false} EntryCountMore(done: seq<Intent>, intent: Intent)
    ensures EntryCount(done + [intent]) == EntryCount(done) + if intent.Entry? then 1 else 0
  {
    assert (done + [intent])[..|done|] == done;
  }

  lemma {:induction false} EntryCountPrefix(intents: seq<Intent>, n: nat)
    requires n <= |intents|
    ensures EntryCount(intents[..n]) <= EntryCount(intents)
  {
    assert intents == intents[..n] + intents[n..];
    EntryCountJoin(intents[..n], intents[n..]);
  }

  lemma {:induction false} RouteAllKeeps(
    w: World, was: State, now: int, moved: seq<bool>, slot: Slot, intents: seq<Intent>, n: nat)
    requires Usable(w) && Inv(w, was) && Fits(w, was.lanes) && |moved| == |was.lanes| && n <= |intents|
    requires Obeying(w, was, now, slot, intents)
    ensures var st := RouteAll(w, was, moved, slot.name, intents, n);
            && Quiet(w, st.lanes) && Fits(w, st.lanes) && Reconciled(w, st) && AttemptsOk(w, st)
            && Routed(w, was, st, slot.name, intents[..n])
  {
    hide Usable, Quiet, Reconciled, AttemptsOk, Routed, Obeying, Route;
    if n == 0 {
      assert intents[..0] == [];
      NothingRouted(w, was, slot.name);
    } else {
      RouteAllKeeps(w, was, now, moved, slot, intents, n - 1);
      RouteOne(w, was, RouteAll(w, was, moved, slot.name, intents, n - 1), now, moved, slot, intents, n - 1);
    }
  }

  /** After every intent of a cycle the invariant holds; in particular the slots are not exceeded. */
  lemma {:induction false} RoutingInvariant(
    w: World, was: State, now: int, moved: seq<bool>, slot: Slot, intents: seq<Intent>, n: nat)
    requires Usable(w) && Inv(w, was) && Fits(w, was.lanes) && |moved| == |was.lanes| && n <= |intents|
    requires Obeying(w, was, now, slot, intents)
    ensures Inv(w, RouteAll(w, was, moved, slot.name, intents, n))
  {
    RouteAllKeeps(w, was, now, moved, slot, intents, n);
    CycleOpenCount(w, was, now, slot);
    EntryCountPrefix(intents, n);
    hide Usable, Quiet, Reconciled, AttemptsOk, LaneRouted, CycleFor, RouteAll, EntryCount, BusyLanes, Targets,
      LanesApart;
  }

  // ---------------------------------------------------------------- ticks

  lemma {:induction false} RaisedKeeps(w: World, st: State)
    requires Inv(w, st)
    ensures Inv(w, st.(book := st.book.(raised := true)))
  {
    hide LaneOk, Held, TotalPnl;
    var after := st.(book := st.book.(raised := true));
    forall a | a in st.book.placed ensures Blocked(w, after, a) {
      assert Blocked(w, st, a);
    }
  }

  lemma {:induction false} RunSlotsKeep(w: World, st: State, now: int, moved: seq<bool>, n: nat)
    requires Usable(w) && Inv(w, st) && Fits(w, st.lanes) && |moved| == |st.lanes| && n <= |w.slots|
    ensures Inv(w, RunSlots(w, st, now, moved, n))
  {
    hide Usable, Inv, Obeying, CycleFor, RouteAll;
    if n > 0 {
      RunSlotsKeep(w, st, now, moved, n - 1);
      var before, slot := RunSlots(w, st, now, moved, n - 1), w.slots[n - 1];
      DecideObeys(w, before, now, n - 1);
      var intents := slot.decide(CycleFor(w, before, now, slot));
      if intents.Success? {
        RoutingInvariant(w, before, now, moved, slot, intents.value, |intents.value|);
      } else {
        RaisedKeeps(w, before);
      }
    }
  }

  lemma {:induction false} StartInvariant(w: World)
    ensures Inv(w, Start(w))
  {
    forall fill: Fill ensures Held(Start(w).lanes, fill) == 0 {
      NothingHeld(Start(w).lanes, fill);
    }
    assert BusyLanes(Start(w).lanes) == {};
  }

  lemma {:induction false} NothingHeld(lanes: seq<Lane>, fill: Fill)
    requires forall i :: 0 <= i < |lanes| ==> lanes[i].position.None?
    ensures Held(lanes, fill) == 0
  {
    if lanes != [] {
      NothingHeld(lanes[..|lanes| - 1], fill);
    }
  }

  /** The invariant holds after every tick. */
  lemma {:induction false} TicksKeep(w: World, k: nat)
    requires Usable(w) && k <= |Timeline(w)|
    ensures Inv(w, After(w, k))
  {
    hide Usable, Inv, Timeline, RunSlots, Resolved, FreshLanes, Start;
    if k == 0 {
      StartInvariant(w);
    } else {
      TicksKeep(w, k - 1);
      var st, now := After(w, k - 1), Timeline(w)[k - 1];
      ResolvedKeeps(w, st, now);
      RunSlotsKeep(w, Resolved(w, st, now), now, FreshLanes(w, st.lanes, now), |w.slots|);
    }
  }

  /** It holds after every intent of every strategy on every tick. */
  lemma {:induction false} AlwaysInvariant(w: World, k: nat, j: nat, n: nat)
    requires Usable(w) && k < |Timeline(w)| && j <= |w.slots|
    ensures Inv(w, During(w, k, j, n))
  {
    hide Usable, Inv, Timeline, After, RunSlots, Resolved, FreshLanes, PartSlot;
    var st, now := After(w, k), Timeline(w)[k];
    var moved := FreshLanes(w, st.lanes, now);
    TicksKeep(w, k);
    ResolvedKeeps(w, st, now);
    RunSlotsKeep(w, Resolved(w, st, now), now, moved, j);
    if j < |w.slots| {
      PartSlotKeeps(w, RunSlots(w, Resolved(w, st, now), now, moved, j), now, moved, j, n);
    }
  }

  lemma {:induction false} PartSlotKeeps(w: World, st: State, now: int, moved: seq<bool>, j: nat, n: nat)
    requires Usable(w) && Inv(w, st) && Fits(w, st.lanes) && |moved| == |st.lanes| && j < |w.slots|
    ensures Inv(w, PartSlot(w, st, now, moved, j, n))
  {
    hide Usable, Inv, CycleFor, RouteAll, Obeying;
    DecideObeys(w, st, now, j);
    var intents := w.slots[j].decide(CycleFor(w, st, now, w.slots[j]));
    if intents.Success? && n <= |intents.value| {
      RoutingInvariant(w, st, now, moved, w.slots[j], intents.value, n);
    }
  }

  // ---------------------------------------------------------------- what the invariant says

  /** Busy lanes never exceed the configured number of open positions. */
  lemma {:induction false} SlotCap(w: World, k: nat, j: nat, n: nat)
    requires Usable(w) && k < |Timeline(w)| && j <= |w.slots|
    ensures |BusyLanes(During(w, k, j, n).lanes)| <= w.settings.maxOpenPositions
  {
    AlwaysInvariant(w, k, j, n);
  }

  /** Equity is what the run started with plus everything recorded; each fill is held or has its own record. */
  lemma {:induction false} EquityConserved(w: World, k: nat, j: nat, n: nat)
    requires Usable(w) && k < |Timeline(w)| && j <= |w.slots|
    ensures var st := During(w, k, j, n);
            && st.book.equity == w.startingEquity + TotalPnl(st.book.trades)
            && forall fill: Fill ::
                 multiset(st.book.fills)[fill] == Recorded(st.book.trades, fill) + Held(st.lanes, fill)
  {
    hide TotalPnl, Held;
    AlwaysInvariant(w, k, j, n);
  }

  /** No strategy places two orders on a symbol for signals of the same day. */
  lemma {:induction false} OneAttemptPerDay(w: World, k: nat, j: nat, n: nat)
    requires Usable(w) && k < |Timeline(w)| && j <= |w.slots|
    ensures Distinct(During(w, k, j, n).book.placed)
  {
    AlwaysInvariant(w, k, j, n);
  }

  /** A lane never holds an order and a position, and an order lives on `activeBars` bars of its lane at most. */
  lemma {:induction false} OrdersLiveInTheirWindow(w: World, k: nat, j: nat, n: nat, i: nat)
    requires Usable(w) && k < |Timeline(w)| && j <= |w.slots| && i < |w.lanes|
    ensures var data, lane := w.lanes[i], During(w, k, j, n).lanes[i];
            && !(lane.order.Some? && lane.position.Some?)
            && (lane.order.Some? ==>
                  exists first: nat, last: nat ::
                    && Window(w, data.intraday, lane.order.value, first, last)
                    && first - 1 <= lane.cursor < last
                    && lane.cursor - (first - 1) < w.settings.activeBars)
  {
    hide CycleFor, RouteAll, Resolved, FreshLanes;
    AlwaysInvariant(w, k, j, n);
    var data, lane := w.lanes[i], During(w, k, j, n).lanes[i];
    assert LaneOk(w, data, lane, false);
    if lane.order.Some? {
      var first: nat, last: nat :| Window(w, data.intraday, lane.order.value, first, last) &&
        first - 1 <= lane.cursor < last;
      assert Window(w, data.intraday, lane.order.value, first, last);
    }
  }

  /** A lane that reaches a bar with an order is inside the order's window: the late-expiry branch is dead. */
  lemma {:induction false} LateExpiryUnreachable(w: World, k: nat, i: nat)
    requires Usable(w) && k < |Timeline(w)| && i < |w.lanes|
    ensures var lane := After(w, k).lanes[i];
            IsFresh(w, w.lanes[i], lane, Timeline(w)[k]) && lane.order.Some? ==>
              var stamp := w.lanes[i].intraday[lane.cursor + 1].timestamp;
              lane.order.value.activeTimestamp <= stamp <= lane.order.value.lastActiveTimestamp
  {
    hide Timeline, After, SlotObeys, Shared;
    TicksKeep(w, k);
    var data, lane := w.lanes[i], After(w, k).lanes[i];
    assert LaneOk(w, data, lane, false) && Stamped(data.intraday);
    if IsFresh(w, data, lane, Timeline(w)[k]) && lane.order.Some? {
      AdvanceKeepsLane(w, data, lane);
      NeverPastWindow(w, data, lane.(cursor := lane.cursor + 1));
    }
  }

  /** The records a completed run returns account for its final equity. */
  lemma {:induction false} RunReconciles(w: World)
    requires Usable(w) && Run(w).Success?
    ensures var last := After(w, |Timeline(w)|);
            && last.book.equity == w.startingEquity + TotalPnl(Run(w).value)
            && (forall fill: Fill ::
                  multiset(last.book.fills)[fill] == Recorded(Run(w).value, fill) + Held(last.lanes, fill))
            && |BusyLanes(last.lanes)| <= w.settings.maxOpenPositions
  {
    hide Timeline, After, TotalPnl, Held, Usable;
    TicksKeep(w, |Timeline(w)|);
  }
}
