/** Invariants of whole portfolio runs: slots, equity, exclusivity, order lifetime, one attempt per day. */
module PortfolioSafety {
  import opened Collections
  import opened Domain
  import opened EngineTypes
  import opened Portfolio
  import opened PortfolioLane
  import opened Engine
  import opened Sorting

  // ---------------------------------------------------------------- assumptions on a world

  ghost predicate OneLanePerSymbol(data: seq<LaneData>) {
    forall i, j :: 0 <= i < j < |data| ==> data[i].symbol != data[j].symbol
  }

  /** Whatever a strategy's cycle decides keeps to the engine's contract. */
  ghost predicate SlotObeys(w: World, slot: Slot) {
    && slot.name != ""
    && forall cycle: CycleInput :: SymbolsUsable(cycle) && slot.decide(cycle).Success?
         ==> Obeys(w.calendar, w.settings.maxOpenPositions, slot.name, cycle, slot.decide(cycle).value)
  }

  /** One scenario per symbol, bars with strictly increasing stamps, and a monotone calendar. */
  ghost predicate Usable(w: World) {
    && w.settings.Valid()
    && w.calendar.Valid()
    && OneLanePerSymbol(w.lanes)
    && (forall i :: 0 <= i < |w.lanes| ==> w.lanes[i].symbol != "" && Stamped(w.lanes[i].intraday))
    && (forall j :: 0 <= j < |w.slots| ==> SlotObeys(w, w.slots[j]))
  }

  // ---------------------------------------------------------------- the invariant

  function BusyLanes(lanes: seq<Lane>): set<int> {
    set i | 0 <= i < |lanes| && lanes[i].Busy()
  }

  /** How many lanes hold a fill. */
  function Held(lanes: seq<Lane>, fill: Fill): nat {
    if lanes == [] then 0 else Held(lanes[..|lanes| - 1], fill) + Holding(lanes[|lanes| - 1], fill)
  }

  /** Lanes from n on may still have to resolve the bar they have just reached. */
  ghost predicate LanesOk(w: World, lanes: seq<Lane>, pending: seq<bool>, n: nat) {
    && |lanes| == |w.lanes| == |pending|
    && forall i :: 0 <= i < |lanes| ==> LaneOk(w, w.lanes[i], lanes[i], n <= i && pending[i])
  }

  /** No lane has a bar to resolve. */
  ghost predicate Quiet(w: World, lanes: seq<Lane>) {
    && |lanes| == |w.lanes|
    && forall i :: 0 <= i < |lanes| ==> LaneOk(w, w.lanes[i], lanes[i], false)
  }

  /** Every fill made is held by a lane or closed by a record, as many times as it was made. */
  ghost predicate FillsAccounted(lanes: seq<Lane>, book: Book) {
    forall fill: Fill :: multiset(book.fills)[fill] == Recorded(book.trades, fill) + Held(lanes, fill)
  }

  /** Equity is the starting equity plus all recorded results, and the fills are accounted for. */
  ghost predicate Reconciled(w: World, st: State) {
    && st.book.equity == w.startingEquity + TotalPnl(st.book.trades)
    && FillsAccounted(st.lanes, st.book)
  }

  ghost predicate Blocked(w: World, st: State, a: Attempt) {
    var k := LaneIndex(w.lanes, a.symbol);
    k < |w.lanes| && k < |st.lanes| && Blocks(w, w.lanes[k], st.lanes[k], st.book, a)
  }

  /** No attempt was made twice, and each one made blocks its repetition. */
  ghost predicate AttemptsOk(w: World, st: State) {
    && Distinct(st.book.placed)
    && forall a :: a in st.book.placed ==> Blocked(w, st, a)
  }

  ghost predicate Shared(w: World, st: State) {
    && Reconciled(w, st)
    && AttemptsOk(w, st)
    && |BusyLanes(st.lanes)| <= w.settings.maxOpenPositions
  }

  ghost predicate Inv(w: World, st: State) {
    Quiet(w, st.lanes) && Shared(w, st)
  }

  // ---------------------------------------------------------------- sets and counts

  lemma {:induction false} SubsetSize<T>(a: set<T>, b: set<T>)
    requires a <= b
    ensures |a| <= |b|
  {
    if a != {} {
      var x :| x in a;
      SubsetSize(a - {x}, b - {x});
    }
  }

  lemma {:induction false} BusyShrinks(before: seq<Lane>, after: seq<Lane>)
    requires |before| == |after| && forall i :: 0 <= i < |after| && after[i].Busy() ==> before[i].Busy()
    ensures |BusyLanes(after)| <= |BusyLanes(before)|
  {
    SubsetSize(BusyLanes(after), BusyLanes(before));
  }

  lemma {:induction false} BusyUpdate(lanes: seq<Lane>, k: nat, lane: Lane)
    requires k < |lanes|
    ensures |BusyLanes(lanes[k := lane])| <= |BusyLanes(lanes)| + 1
    ensures (lane.Busy() ==> lanes[k].Busy()) ==> |BusyLanes(lanes[k := lane])| <= |BusyLanes(lanes)|
  {
    SubsetSize(BusyLanes(lanes[k := lane]), BusyLanes(lanes) + {k as int});
    if lane.Busy() ==> lanes[k].Busy() {
      SubsetSize(BusyLanes(lanes[k := lane]), BusyLanes(lanes));
    }
  }

  lemma {:induction false} HeldUpdate(lanes: seq<Lane>, k: nat, lane: Lane, fill: Fill)
    requires k < |lanes|
    ensures Held(lanes[k := lane], fill) == Held(lanes, fill) - Holding(lanes[k], fill) + Holding(lane, fill)
  {
    var n := |lanes| - 1;
    if k == n {
      assert lanes[k := lane][..n] == lanes[..n];
    } else {
      assert lanes[k := lane][..n] == lanes[..n][k := lane];
      HeldUpdate(lanes[..n], k, lane, fill);
    }
  }

  lemma {:induction false} HeldSame(a: seq<Lane>, b: seq<Lane>, fill: Fill)
    requires |a| == |b| && forall i :: 0 <= i < |a| ==> a[i].position == b[i].position
    ensures Held(a, fill) == Held(b, fill)
  {
    if a != [] {
      HeldSame(a[..|a| - 1], b[..|b| - 1], fill);
    }
  }

  lemma {:induction false} IndexOf(data: seq<LaneData>, k: nat)
    requires OneLanePerSymbol(data) && k < |data|
    ensures LaneIndex(data, data[k].symbol) == k
  {
  }

  // ---------------------------------------------------------------- one lane changes

  lemma {:induction false} ReconciledUpdate(w: World, st: State, k: nat, o: Outcome)
    requires k < |st.lanes| && Reconciled(w, st) && Conserves(st.lanes[k], st.book, o)
    ensures Reconciled(w, State(st.lanes[k := o.lane], o.book))
  {
    hide TotalPnl, Held, Holding, Recorded;
    var lane := st.lanes[k];
    forall fill: Fill
      ensures multiset(o.book.fills)[fill] == Recorded(o.book.trades, fill) + Held(st.lanes[k := o.lane], fill)
    {
      assert Elsewhere(o.lane, o.book, fill) == Elsewhere(lane, st.book, fill);
      HeldUpdate(st.lanes, k, o.lane, fill);
    }
  }

  lemma {:induction false} BlockedUpdate(w: World, st: State, k: nat, o: Outcome, a: Attempt)
    requires k < |st.lanes| == |w.lanes| && OneLanePerSymbol(w.lanes)
    requires Blocked(w, st, a) && Grows(st.book, o.book)
    requires a.symbol == w.lanes[k].symbol ==> Blocks(w, w.lanes[k], o.lane, o.book, a)
    ensures Blocked(w, State(st.lanes[k := o.lane], o.book), a)
  {
    IndexOf(w.lanes, k);
    GrowsEverywhere(st.book, o.book, a.strategy);
  }

  // ---------------------------------------------------------------- reaching the next bar

  lemma {:induction false} AdvanceKeepsLanes(w: World, st: State, now: int)
    requires Usable(w) && Quiet(w, st.lanes) && Fits(w, st.lanes)
    ensures LanesOk(w, Advance(w, st.lanes, now), FreshLanes(w, st.lanes, now), 0)
  {
    hide LaneOk, SlotObeys;
    var lanes, moved := Advance(w, st.lanes, now), FreshLanes(w, st.lanes, now);
    forall i | 0 <= i < |lanes| ensures LaneOk(w, w.lanes[i], lanes[i], moved[i]) {
      if moved[i] {
        AdvanceKeepsLane(w, w.lanes[i], st.lanes[i]);
      }
    }
  }

  lemma {:induction false} QuietFits(w: World, lanes: seq<Lane>)
    requires Quiet(w, lanes)
    ensures Fits(w, lanes)
  {
    hide OrderOk, PositionOk;
  }

  lemma {:induction false} AdvanceKeepsBlocked(w: World, st: State, now: int, a: Attempt)
    requires Usable(w) && Fits(w, st.lanes) && Blocked(w, st, a)
    ensures Blocked(w, State(Advance(w, st.lanes, now), st.book), a)
  {
    hide Blocks, SlotObeys;
    var k := LaneIndex(w.lanes, a.symbol);
    if FreshLanes(w, st.lanes, now)[k] {
      AdvanceBlocks(w, w.lanes[k], st.lanes[k], st.book, a);
    }
  }

  lemma {:induction false} AdvanceKeeps(w: World, st: State, now: int)
    requires Usable(w) && Inv(w, st)
    ensures Fits(w, st.lanes)
    ensures var lanes := Advance(w, st.lanes, now);
            LanesOk(w, lanes, FreshLanes(w, st.lanes, now), 0) && Shared(w, State(lanes, st.book))
  {
    hide Usable, Quiet, LanesOk, Blocked, TotalPnl, Held, Recorded;
    QuietFits(w, st.lanes);
    AdvanceKeepsLanes(w, st, now);
    var lanes := Advance(w, st.lanes, now);
    forall fill: Fill ensures Held(lanes, fill) == Held(st.lanes, fill) {
      HeldSame(lanes, st.lanes, fill);
    }
    BusyShrinks(st.lanes, lanes);
    forall a | a in st.book.placed ensures Blocked(w, State(lanes, st.book), a) {
      AdvanceKeepsBlocked(w, st, now, a);
    }
  }

  // ---------------------------------------------------------------- fills and exits

  lemma {:induction false} ResolveOneKeeps(w: World, st: State, moved: seq<bool>, n: nat)
    requires Usable(w) && n < |st.lanes| && LanesOk(w, st.lanes, moved, n) && Shared(w, st)
    requires moved[n] && st.lanes[n].cursor >= 0
    ensures var o := ResolveLane(w, w.lanes[n].intraday[st.lanes[n].cursor], st.lanes[n], st.book);
            var after := State(st.lanes[n := o.lane], o.book);
            LanesOk(w, after.lanes, moved, n + 1) && Shared(w, after)
  {
    var data, lane := w.lanes[n], st.lanes[n];
    assert LaneOk(w, data, lane, true);
    var bar := data.intraday[lane.cursor];
    hide ResolveLane, Blocks;
    var o := ResolveLane(w, bar, lane, st.book);
    ResolveKeepsLane(w, data, lane, st.book);
    ResolveConserves(w, bar, lane, st.book);
    ResolveGrows(w, bar, lane, st.book);
    hide LaneOk, Grows, Conserves;
    ReconciledUpdate(w, st, n, o);
    BusyUpdate(st.lanes, n, o.lane);
    forall a | a in st.book.placed ensures Blocked(w, State(st.lanes[n := o.lane], o.book), a) {
      if a.symbol == data.symbol {
        IndexOf(w.lanes, n);
        ResolveBlocks(w, data, lane, st.book, a);
      }
      BlockedUpdate(w, st, n, o, a);
    }
  }

  lemma {:induction false} ResolveLanesKeep(w: World, st: State, moved: seq<bool>, n: nat)
    requires Usable(w) && n <= |st.lanes| && LanesOk(w, st.lanes, moved, 0) && Shared(w, st) && Fits(w, st.lanes)
    requires forall i :: 0 <= i < |moved| && moved[i] ==> st.lanes[i].cursor >= 0
    ensures var after := ResolveLanes(w, st, moved, n);
            LanesOk(w, after.lanes, moved, n) && Shared(w, after)
  {
    hide Shared, LaneOk, ResolveLane;
    if n > 0 {
      ResolveLanesKeep(w, st, moved, n - 1);
      var before := ResolveLanes(w, st, moved, n - 1);
      if moved[n - 1] {
        ResolveOneKeeps(w, before, moved, n - 1);
      } else {
        assert forall i :: 0 <= i < |before.lanes| ==> (n - 1 <= i && moved[i]) == (n <= i && moved[i]);
      }
    }
  }

  lemma {:induction false} ResolvedKeeps(w: World, st: State, now: int)
    requires Usable(w) && Inv(w, st) && Fits(w, st.lanes)
    ensures Inv(w, Resolved(w, st, now))
  {
    hide Shared, LaneOk;
    var moved := FreshLanes(w, st.lanes, now);
    AdvanceKeeps(w, st, now);
    ResolveLanesKeep(w, State(Advance(w, st.lanes, now), st.book), moved, |st.lanes|);
  }

  // ---------------------------------------------------------------- what a cycle sees of the lanes

  lemma {:induction false} LookupEligible<V(!new)>(
    data: seq<LaneData>, lanes: seq<Lane>, value: (LaneData, Lane) -> V, k: nat)
    requires |data| == |lanes| && OneLanePerSymbol(data) && k < |data|
    ensures var m := ByEligible(data, lanes, value);
            && (data[k].symbol in m <==> lanes[k].cursor >= 0)
            && (lanes[k].cursor >= 0 ==> m[data[k].symbol] == value(data[k], lanes[k]))
    decreases |data|
  {
    var n := |data| - 1;
    if k < n {
      LookupEligible(data[..n], lanes[..n], value, k);
    } else {
      NotEligible(data[..n], lanes[..n], value, data[n].symbol);
    }
  }

  lemma {:induction false} NotEligible<V(!new)>(
    data: seq<LaneData>, lanes: seq<Lane>, value: (LaneData, Lane) -> V, symbol: Symbol)
    requires |data| == |lanes| && forall i :: 0 <= i < |data| ==> data[i].symbol != symbol
    ensures symbol !in ByEligible(data, lanes, value)
  {
    if data != [] {
      NotEligible(data[..|data| - 1], lanes[..|data| - 1], value, symbol);
    }
  }

  lemma {:induction false} EligibleDistinct(data: seq<LaneData>, lanes: seq<Lane>)
    requires |data| == |lanes| && OneLanePerSymbol(data)
    ensures Distinct(EligibleSymbols(data, lanes))
  {
    if data != [] {
      var n := |data| - 1;
      EligibleDistinct(data[..n], lanes[..n]);
      var rest := EligibleSymbols(data[..n], lanes[..n]);
      forall i | 0 <= i < |rest| ensures rest[i] != data[n].symbol {
        assert rest[i] in rest;
      }
    }
  }

  lemma {:induction false} LessIsStrict(symbols: seq<Symbol>)
    ensures StrictOrder(symbols, Less)
  {
    forall a: Symbol, b: Symbol ensures (Less(a, b) ==> !Less(b, a)) && (a == b || Less(a, b) || Less(b, a)) {
      LessAsymmetric(a, b);
      LessTotal(a, b);
    }
    forall a: Symbol, b: Symbol, c: Symbol | Less(a, b) && Less(b, c) ensures Less(a, c) {
      LessTransitive(a, b, c);
    }
  }

  lemma {:induction false} CycleSymbols(w: World, st: State, now: int, slot: Slot)
    requires Usable(w) && Fits(w, st.lanes)
    ensures SymbolsUsable(CycleFor(w, st, now, slot))
    ensures forall x :: x in CycleFor(w, st, now, slot).symbols ==>
              var k := LaneIndex(w.lanes, x); k < |w.lanes| && st.lanes[k].cursor >= 0
  {
    hide SlotObeys, ByEligible, Contexts, Positions, OfStrategy, SymbolsOf, DailyBefore;
    var eligible := EligibleSymbols(w.lanes, st.lanes);
    EligibleDistinct(w.lanes, st.lanes);
    LessIsStrict(eligible);
    SortedIsDistinct(eligible, Less);
    forall x | x in eligible ensures var k := LaneIndex(w.lanes, x); k < |w.lanes| && st.lanes[k].cursor >= 0 {
      var i :| 0 <= i < |w.lanes| && st.lanes[i].cursor >= 0 && w.lanes[i].symbol == x;
      IndexOf(w.lanes, i);
    }
  }

  lemma {:induction false} CycleBars(w: World, st: State, now: int, slot: Slot, k: nat)
    requires Usable(w) && Fits(w, st.lanes) && k < |w.lanes| && st.lanes[k].cursor >= 0
    ensures CycleFor(w, st, now, slot).BarsOf(w.lanes[k].symbol) == w.lanes[k].intraday[..st.lanes[k].cursor + 1]
  {
    hide SlotObeys, ByEligible, Contexts, Positions, OfStrategy, SymbolsOf, DailyBefore, EligibleSymbols, SortBy;
    LookupEligible(w.lanes, st.lanes, Completed, k);
  }

  /** Holding a symbol means that the lane's position is the strategy's own. */
  lemma {:induction false} CycleHolds(w: World, st: State, now: int, slot: Slot, k: nat)
    requires Usable(w) && Quiet(w, st.lanes) && Fits(w, st.lanes) && k < |w.lanes|
    ensures var cycle := CycleFor(w, st, now, slot);
            var x, lane := w.lanes[k].symbol, st.lanes[k];
            && (cycle.Holds(x) ==> lane.position.Some? && lane.position.value.strategy == slot.name)
            && (lane.Busy() ==> cycle.Holds(x) || x in cycle.working)
  {
    hide SlotObeys, ByEligible, Contexts, DailyBefore, EligibleSymbols, SortBy, OrderOk, SymbolsOf, Positions,
      OfStrategy;
    var cycle, x, lane := CycleFor(w, st, now, slot), w.lanes[k].symbol, st.lanes[k];
    var open := Positions(st.lanes);
    assert cycle.positions == OfStrategy(open, slot.name);
    assert cycle.working == WorkingSymbols(w.lanes, st.lanes) + (SymbolsOf(open) - SymbolsOf(cycle.positions));
    assert LaneOk(w, w.lanes[k], lane, false);
    hide CycleFor;
    if cycle.Holds(x) {
      var i :| 0 <= i < |cycle.positions| && cycle.positions[i].symbol == x;
      HeldLane(w, st, cycle.positions[i], k);
    }
    if lane.position.Some? {
      PositionListed(open, lane.position.value);
    }
  }

  lemma {:induction false} HeldLane(w: World, st: State, p: Position, k: nat)
    requires Usable(w) && Quiet(w, st.lanes) && k < |w.lanes|
    requires p in Positions(st.lanes) && p.symbol == w.lanes[k].symbol
    ensures st.lanes[k].position == Some(p)
  {
    hide SlotObeys, OrderOk, Positions;
    var m :| 0 <= m < |st.lanes| && st.lanes[m].position == Some(p);
    assert LaneOk(w, w.lanes[m], st.lanes[m], false);
    assert m == k;
  }

  lemma {:induction false} PositionListed(open: seq<Position>, p: Position)
    requires p in open
    ensures p.symbol in SymbolsOf(open)
  {
  }

  lemma Member<T>(s: set<T>) returns (x: T)
    requires s != {}
    ensures x in s
  {
    x :| x in s;
  }

  lemma {:induction false} ImageSize(data: seq<LaneData>, ks: set<int>)
    requires OneLanePerSymbol(data) && forall k :: k in ks ==> 0 <= k < |data|
    ensures |set k | k in ks :: data[k].symbol| == |ks|
  {
    if ks != {} {
      var k := Member(ks);
      var rest := ks - {k};
      ImageSize(data, rest);
      var image := set j | j in ks :: data[j].symbol;
      var smaller := set j | j in rest :: data[j].symbol;
      assert data[k].symbol !in smaller;
      assert image == smaller + {data[k].symbol};
    }
  }

  /** The occupied slots a strategy is told of are the busy lanes. */
  lemma {:induction false} CycleOpenCount(w: World, st: State, now: int, slot: Slot)
    requires Usable(w) && Quiet(w, st.lanes) && Fits(w, st.lanes)
    ensures CycleFor(w, st, now, slot).openCount == |BusyLanes(st.lanes)|
  {
    hide SlotObeys, ByEligible, Contexts, DailyBefore, EligibleSymbols, SortBy, OrderOk, OfStrategy, SymbolsOf,
      Positions;
    var open, working := Positions(st.lanes), WorkingSymbols(w.lanes, st.lanes);
    var busy := BusyLanes(st.lanes);
    ImageSize(w.lanes, busy);
    var image := set k | k in busy :: w.lanes[k].symbol;
    forall x | x in SymbolsOf(open) + working ensures x in image {
      if x in working {
        var i :| 0 <= i < |w.lanes| && st.lanes[i].order.Some? && w.lanes[i].symbol == x;
        assert i in busy;
      } else {
        var m :| 0 <= m < |open| && open[m].symbol == x;
        assert open[m] in open;
        var i :| 0 <= i < |st.lanes| && st.lanes[i].position == Some(open[m]);
        assert LaneOk(w, w.lanes[i], st.lanes[i], false) && i in busy;
      }
    }
    forall x | x in image ensures x in SymbolsOf(open) + working {
      var k :| k in busy && w.lanes[k].symbol == x;
      assert LaneOk(w, w.lanes[k], st.lanes[k], false);
      if st.lanes[k].position.Some? {
        PositionListed(open, st.lanes[k].position.value);
      }
    }
    assert SymbolsOf(open) + working == image;
  }

  // ---------------------------------------------------------------- routing

  predicate NoEntryFor(intents: seq<Intent>, symbol: Symbol) {
    forall m :: 0 <= m < |intents| ==> !(intents[m].Entry? && intents[m].LaneSymbol() == symbol)
  }

  /** What routing some intents may have done to a lane. */
  ghost predicate LaneRouted(
    data: LaneData, was: Lane, lane: Lane, wasBook: Book, book: Book, name: Strategy, done: seq<Intent>)
  {
    && lane.cursor == was.cursor
    && (lane.position.Some? ==> was.position.Some? && lane.position.value.strategy == was.position.value.strategy)
    && (NoEntryFor(done, data.symbol) ==> lane.order == was.order)
    && (was.position.None? ==>
          forall d :: (data.symbol, d) in book.Traded(name) ==> (data.symbol, d) in wasBook.Traded(name))
  }

  ghost predicate Routed(w: World, was: State, st: State, name: Strategy, done: seq<Intent>) {
    && |st.lanes| == |was.lanes| == |w.lanes|
    && (forall k :: 0 <= k < |w.lanes| ==>
       LaneRouted(w.lanes[k], was.lanes[k], st.lanes[k], was.book, st.book, name, done))
    && |BusyLanes(st.lanes)| <= |BusyLanes(was.lanes)| + EntryCount(done)
  }

  /** An intent about to be routed finds its lane as the cycle saw it. */
  ghost predicate FindsLane(w: World, data: LaneData, lane: Lane, book: Book, name: Strategy, intent: Intent) {
    && (intent.Entry? ==>
          && EntryFor(data, lane, name, intent) && !lane.Busy()
          && (data.symbol, w.calendar.day(data.intraday[lane.cursor].timestamp)) !in book.Traded(name))
    && (intent.Exit? && lane.position.Some? ==> lane.position.value.strategy == name)
  }

  lemma {:induction false} EntrySawFree(
    cal: Calendar, data: LaneData, lane: Lane, book: Book, name: Strategy, cycle: CycleInput, intent: Intent)
    requires intent.Entry? && name != "" && Targets(cal, name, cycle, intent) && intent.LaneSymbol() == data.symbol
    requires 0 <= lane.cursor < |data.intraday| && cycle.BarsOf(data.symbol) == data.intraday[..lane.cursor + 1]
    requires lane.Busy() ==> cycle.Holds(data.symbol) || data.symbol in cycle.working
    requires cycle.traded == book.Traded(name)
    ensures EntryFor(data, lane, name, intent) && !lane.Busy()
    ensures (data.symbol, cal.day(data.intraday[lane.cursor].timestamp)) !in book.Traded(name)
  {
    hide CycleInput.BarsOf, CycleInput.Holds, Book.Traded;
  }

  /** An entry's lane as the cycle saw it: free, with a latest bar, and not tried today. */
  lemma {:induction false} EntrySawLane(w: World, was: State, now: int, slot: Slot, intent: Intent, k: nat)
    requires Usable(w) && Quiet(w, was.lanes) && Fits(w, was.lanes) && slot.name != ""
    requires intent.Entry? && Targets(w.calendar, slot.name, CycleFor(w, was, now, slot), intent)
    requires k < |w.lanes| && k == LaneIndex(w.lanes, intent.LaneSymbol())
    ensures var data, lane := w.lanes[k], was.lanes[k];
            && EntryFor(data, lane, slot.name, intent) && !lane.Busy()
            && (data.symbol, w.calendar.day(data.intraday[lane.cursor].timestamp)) !in was.book.Traded(slot.name)
  {
    hide CycleFor, Usable, LaneOk, EntryFor, Lane.Busy, CycleInput.BarsOf, CycleInput.Holds, Book.Traded;
    CycleHolds(w, was, now, slot, k);
    CycleSymbols(w, was, now, slot);
    CycleTraded(w, was, now, slot);
    assert intent.LaneSymbol() in CycleFor(w, was, now, slot).symbols;
    CycleBars(w, was, now, slot, k);
    EntrySawFree(w.calendar, w.lanes[k], was.lanes[k], was.book, slot.name, CycleFor(w, was, now, slot), intent);
  }

  lemma {:induction false} NoEarlierEntry(intents: seq<Intent>, n: nat)
    requires n < |intents| && intents[n].Entry? && Pairwise(intents, LanesApart)
    ensures NoEntryFor(intents[..n], intents[n].LaneSymbol())
  {
    forall m | 0 <= m < n ensures !(intents[..n][m].Entry? && intents[..n][m].LaneSymbol() == intents[n].LaneSymbol()) {
      assert LanesApart(intents[m], intents[n]);
    }
  }

  lemma {:induction false} IntentFindsLane(
    w: World, was: State, st: State, now: int, slot: Slot, intents: seq<Intent>, n: nat, k: nat)
    requires Usable(w) && Quiet(w, was.lanes) && Fits(w, was.lanes) && slot.name != ""
    requires Obeys(w.calendar, w.settings.maxOpenPositions, slot.name, CycleFor(w, was, now, slot), intents)
    requires n < |intents| && Routed(w, was, st, slot.name, intents[..n])
    requires k < |w.lanes| && k == LaneIndex(w.lanes, intents[n].LaneSymbol())
    ensures FindsLane(w, w.lanes[k], st.lanes[k], st.book, slot.name, intents[n])
  {
    hide CycleFor, Usable, LaneOk, NoEntryFor, EntryCount, CycleInput.Holds, CycleInput.BarsOf, Book.Traded;
    var intent, data, was', lane := intents[n], w.lanes[k], was.lanes[k], st.lanes[k];
    assert Targets(w.calendar, slot.name, CycleFor(w, was, now, slot), intent);
    assert LaneRouted(data, was', lane, was.book, st.book, slot.name, intents[..n]);
    hide Routed, Quiet;
    if intent.Entry? {
      EntrySawLane(w, was, now, slot, intent, k);
      NoEarlierEntry(intents, n);
      var today := w.calendar.day(data.intraday[lane.cursor].timestamp);
      assert was'.position.None? && (data.symbol, today) !in was.book.Traded(slot.name);
      assert (data.symbol, today) !in st.book.Traded(slot.name);
    } else {
      CycleHolds(w, was, now, slot, k);
      assert intent.LaneSymbol() == intent.symbol == data.symbol;
    }
  }

  lemma {:induction false} CycleTraded(w: World, st: State, now: int, slot: Slot)
    requires Fits(w, st.lanes)
    ensures CycleFor(w, st, now, slot).traded == st.book.Traded(slot.name)
  {
    hide ByEligible, Contexts, Positions, OfStrategy, SymbolsOf, DailyBefore, EligibleSymbols, SortBy;
  }

  lemma {:induction false} DistinctAppend(placed: seq<Attempt>, a: Attempt)
    requires Distinct(placed) && a !in placed
    ensures Distinct(placed + [a])
  {
  }

  lemma {:induction false} RouteKeepsBlocks(
    w: World, st: State, data: LaneData, lane: Lane, moved: bool, name: Strategy, intent: Intent, k: nat, a: Attempt)
    requires OneLanePerSymbol(w.lanes) && k < |w.lanes| == |st.lanes| && data == w.lanes[k] && lane == st.lanes[k]
    requires LaneOk(w, data, lane, false) && Blocked(w, st, a)
    requires FindsLane(w, data, lane, st.book, name, intent)
    ensures var o := Apply(w, data, lane, st.book, moved, name, intent);
            Blocked(w, State(st.lanes[k := o.lane], o.book), a)
  {
    NamedLane(w, data, lane);
    assert -1 <= lane.cursor < |data.intraday|;
    hide Blocks, LaneOk, Apply, Grows, Named;
    var o := Apply(w, data, lane, st.book, moved, name, intent);
    ApplyGrows(w, data, lane, st.book, moved, name, intent);
    IndexOf(w.lanes, k);
    if a.symbol == data.symbol {
      ApplyBlocks(w, data, lane, st.book, moved, name, intent, a);
    }
    BlockedUpdate(w, st, k, o, a);
  }

  lemma {:induction false} RouteAttempts(w: World, st: State, moved: seq<bool>, name: Strategy, intent: Intent, k: nat)
    requires Usable(w) && Quiet(w, st.lanes) && Fits(w, st.lanes) && |moved| == |st.lanes| && AttemptsOk(w, st)
    requires k < |w.lanes| && k == LaneIndex(w.lanes, intent.LaneSymbol())
    requires FindsLane(w, w.lanes[k], st.lanes[k], st.book, name, intent)
    ensures AttemptsOk(w, Route(w, st, moved, name, intent))
  {
    var data, lane := w.lanes[k], st.lanes[k];
    assert LaneOk(w, data, lane, false);
    ApartSymbols(w);
    hide Blocked, Usable, LaneOk, Apply, Grows, FindsLane;
    var o := Apply(w, data, lane, st.book, moved[k], name, intent);
    ApplyGrows(w, data, lane, st.book, moved[k], name, intent);
    forall a | a in st.book.placed ensures Blocked(w, State(st.lanes[k := o.lane], o.book), a) {
      RouteKeepsBlocks(w, st, data, lane, moved[k], name, intent, k, a);
    }
    if o.book.placed != st.book.placed {
      ApplyIsPlace(w, data, lane, st.book, moved[k], name, intent);
      NewAttempt(w, st, data, lane, moved[k], name, intent, k);
    }
  }

  lemma {:induction false} ApplyIsPlace(
    w: World, data: LaneData, lane: Lane, book: Book, moved: bool, name: Strategy, intent: Intent)
    requires intent.Entry? && -1 <= lane.cursor < |data.intraday|
    ensures Apply(w, data, lane, book, moved, name, intent) == PlaceOrder(w, data, lane, book, intent)
  {
  }

  lemma {:induction false} ApartSymbols(w: World)
    requires Usable(w)
    ensures OneLanePerSymbol(w.lanes)
  {
  }

  lemma {:induction false} NamedLane(w: World, data: LaneData, lane: Lane)
    requires LaneOk(w, data, lane, false)
    ensures Named(data, lane)
  {
  }

  /** A strategy that places an order has not tried this symbol for this day before. */
  lemma {:induction false} NewAttempt(
    w: World, st: State, data: LaneData, lane: Lane, moved: bool, name: Strategy, intent: Intent, k: nat)
    requires Usable(w) && AttemptsOk(w, st) && k < |w.lanes| == |st.lanes| && data == w.lanes[k] && lane == st.lanes[k]
    requires intent.Entry? && FindsLane(w, data, lane, st.book, name, intent)
    requires PlaceOrder(w, data, lane, st.book, intent).book.placed != st.book.placed
    ensures var o := PlaceOrder(w, data, lane, st.book, intent);
            && Distinct(o.book.placed)
            && forall a :: a in o.book.placed && a !in st.book.placed ==>
               Blocked(w, State(st.lanes[k := o.lane], o.book), a)
  {
    hide PlaceOrder, SlotObeys, Stamped;
    var a := Attempt(name, data.symbol, w.calendar.day(data.intraday[lane.cursor].timestamp));
    PlacedBlocks(w, data, lane, st.book, name, intent);
    IndexOf(w.lanes, k);
    assert a in st.book.placed ==> Blocked(w, st, a);
    DistinctAppend(st.book.placed, a);
  }

  lemma {:induction false} RouteKeeps(w: World, st: State, moved: seq<bool>, name: Strategy, intent: Intent, k: nat)
    requires Usable(w) && Quiet(w, st.lanes) && Fits(w, st.lanes) && |moved| == |st.lanes| && Reconciled(w, st)
    requires k < |w.lanes| && k == LaneIndex(w.lanes, intent.LaneSymbol())
    requires FindsLane(w, w.lanes[k], st.lanes[k], st.book, name, intent)
    ensures var after := Route(w, st, moved, name, intent);
            && Quiet(w, after.lanes) && Fits(w, after.lanes) && Reconciled(w, after)
            && |BusyLanes(after.lanes)| <= |BusyLanes(st.lanes)| + if intent.Entry? then 1 else 0
  {
    hide Usable, LaneOk, Apply, Grows, Reconciled, Conserves, BusyLanes;
    var data, lane := w.lanes[k], st.lanes[k];
    assert LaneOk(w, data, lane, false);
    ApplyKeepsLane(w, data, lane, st.book, moved[k], name, intent);
    ApplyConserves(w, data, lane, st.book, moved[k], name, intent);
    ApplyGrows(w, data, lane, st.book, moved[k], name, intent);
    var o := Apply(w, data, lane, st.book, moved[k], name, intent);
    ReconciledUpdate(w, st, k, o);
    BusyUpdate(st.lanes, k, o.lane);
  }

  lemma {:induction false} RouteRoutes(
    w: World, was: State, st: State, moved: seq<bool>, name: Strategy, done: seq<Intent>, intent: Intent, k: nat)
    requires OneLanePerSymbol(w.lanes) && Quiet(w, st.lanes) && Fits(w, st.lanes) && |moved| == |st.lanes|
    requires k < |w.lanes| && k == LaneIndex(w.lanes, intent.LaneSymbol())
    requires Routed(w, was, st, name, done)
    ensures var after := Route(w, st, moved, name, intent);
            |after.lanes| == |w.lanes| &&
            forall i :: 0 <= i < |w.lanes| ==>
              LaneRouted(w.lanes[i], was.lanes[i], after.lanes[i], was.book, after.book, name, done + [intent])
  {
    var data, lane := w.lanes[k], st.lanes[k];
    assert LaneOk(w, data, lane, false);
    assert Named(data, lane) by { NamedLane(w, data, lane); }
    hide LaneOk, Apply, Grows, BusyLanes, EntryCount;
    var o := Apply(w, data, lane, st.book, moved[k], name, intent);
    var after := State(st.lanes[k := o.lane], o.book);
    ApplyGrows(w, data, lane, st.book, moved[k], name, intent);
    ApplyKeepsCursor(w, data, lane, st.book, moved[k], name, intent);
    forall i | 0 <= i < |w.lanes|
      ensures LaneRouted(w.lanes[i], was.lanes[i], after.lanes[i], was.book, after.book, name, done + [intent])
    {
      assert LaneRouted(w.lanes[i], was.lanes[i], st.lanes[i], was.book, st.book, name, done);
      if NoEntryFor(done + [intent], w.lanes[i].symbol) {
        assert (done + [intent])[|done|] == intent;
        assert forall m :: 0 <= m < |done| ==> (done + [intent])[m] == done[m];
      }
    }
  }

  lemma {:induction false} ApplyKeepsCursor(
    w: World, data: LaneData, lane: Lane, book: Book, moved: bool, name: Strategy, intent: Intent)
    requires -1 <= lane.cursor < |data.intraday|
    ensures Apply(w, data, lane, book, moved, name, intent).lane.cursor == lane.cursor
  {
    hide LastActive, NewOrder, EngineExitPrice, Record;
  }
}
