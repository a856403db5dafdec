/** No look-ahead: what happens up to a time does not depend on any price recorded after it. */
module PortfolioCausality {
  import opened Domain
  import opened EngineTypes
  import opened Mechanics
  import opened OptionLedger
  import opened Portfolio
  import opened PortfolioLane
  import opened PortfolioClock

  // ---------------------------------------------------------------- agreeing up to a time

  /** Two series show the same bars dated before a day. */
  ghost predicate SameBefore(cal: Calendar, a: seq<Bar>, b: seq<Bar>, day: Day) {
    DailyBefore(cal, a, day) == DailyBefore(cal, b, day)
  }

  /** How many bars of a series have closed by T. */
  function ClosedBy(w: World, bars: seq<Bar>, T: int): (m: nat)
    ensures m <= |bars|
    ensures forall i :: 0 <= i < m ==> CloseTime(w, bars[i]) <= T
    ensures m < |bars| ==> CloseTime(w, bars[m]) > T
  {
    if bars == [] || CloseTime(w, bars[0]) > T then 0 else ClosedBy(w, bars[1..], T) + 1
  }

  /** How many bars ahead the runner looks when it places an order: their stamps, and whether there are so many. */
  function Ahead(w: World): nat {
    if w.settings.activeBars > 1 then w.settings.activeBars else 1
  }

  /** The stamps of the next bars after the first m, as far as the runner looks. */
  function NextStamps(w: World, bars: seq<Bar>, m: nat): (r: seq<int>)
    requires m <= |bars|
    ensures |r| == if m + Ahead(w) <= |bars| then Ahead(w) else |bars| - m
    ensures forall i :: 0 <= i < |r| ==> r[i] == bars[m + i].timestamp
  {
    var n := if m + Ahead(w) <= |bars| then Ahead(w) else |bars| - m;
    seq(n, i requires 0 <= i < n => bars[m + i].timestamp)
  }

  /** The same symbol, bars closed by T, stamps of the next few bars, and daily bars before T's day. */
  ghost predicate SameLane(w: World, a: LaneData, b: LaneData, T: int) {
    var m := ClosedBy(w, a.intraday, T);
    && a.symbol == b.symbol
    && ClosedBy(w, b.intraday, T) == m
    && a.intraday[..m] == b.intraday[..m]
    && NextStamps(w, a.intraday, m) == NextStamps(w, b.intraday, m)
    && SameBefore(w.calendar, a.daily, b.daily, w.calendar.day(T))
  }

  /** A context series is there in both worlds or in neither. */
  ghost predicate SameContext(cal: Calendar, a: seq<Bar>, b: seq<Bar>, day: Day) {
    (a == [] <==> b == []) && SameBefore(cal, a, b, day)
  }

  ghost predicate SameLanes(w: World, v: World, T: int) {
    && |w.lanes| == |v.lanes|
    && forall i :: 0 <= i < |w.lanes| ==> SameLane(w, w.lanes[i], v.lanes[i], T)
  }

  ghost predicate SameLedger(w: World, v: World, T: int) {
    && (w.ledger.Some? <==> v.ledger.Some?)
    && (w.ledger.Some? ==> KnownAt(w.ledger.value, T) == KnownAt(v.ledger.value, T))
  }

  ghost predicate SameRules(w: World, v: World) {
    && w.settings == v.settings && w.calendar == v.calendar && w.slots == v.slots
    && w.defaultStrategy == v.defaultStrategy && w.startingEquity == v.startingEquity &&
       w.marketContext == v.marketContext
  }

  ghost predicate SameContexts(w: World, v: World, day: Day) {
    && SameContext(w.calendar, w.regimeDaily, v.regimeDaily, day)
    && SameContext(w.calendar, w.vixDaily, v.vixDaily, day)
    && |w.sectorDaily| == |v.sectorDaily|
    && forall i :: 0 <= i < |w.sectorDaily| ==> SameBefore(w.calendar, w.sectorDaily[i], v.sectorDaily[i], day)
  }

  /** The two worlds differ at most in what happens after T. */
  ghost predicate AgreeUpTo(w: World, v: World, T: int) {
    SameRules(w, v) && SameLanes(w, v, T) && SameContexts(w, v, w.calendar.day(T)) && SameLedger(w, v, T)
  }

  /** A strategy's cycle looks at its daily series only through the filter for positive closes. */
  ghost predicate IgnoresMarks(slot: Slot) {
    forall a: CycleInput, b: CycleInput :: Filtered(a) == Filtered(b) ==> slot.decide(a) == slot.decide(b)
  }

  ghost predicate Causal(w: World) {
    && w.calendar.Valid() && StampedWorld(w)
    && forall j :: 0 <= j < |w.slots| ==> IgnoresMarks(w.slots[j])
  }

  // ---------------------------------------------------------------- prefixes

  lemma {:induction false} PrefixOfPrefix(cal: Calendar, daily: seq<Bar>, d: Day, D: Day)
    requires d <= D
    ensures DailyBefore(cal, daily, d) == DailyBefore(cal, DailyBefore(cal, daily, D), d)
  {
    if daily != [] && cal.day(daily[0].timestamp) < D {
      PrefixOfPrefix(cal, daily[1..], d, D);
      var longer := DailyBefore(cal, daily[1..], D);
      assert ([daily[0]] + longer)[1..] == longer;
    }
  }

  lemma {:induction false} SameEarlier(cal: Calendar, a: seq<Bar>, b: seq<Bar>, d: Day, D: Day)
    requires d <= D && SameBefore(cal, a, b, D)
    ensures DailyBefore(cal, a, d) == DailyBefore(cal, b, d)
  {
    hide DailyBefore;
    PrefixOfPrefix(cal, a, d, D);
    PrefixOfPrefix(cal, b, d, D);
  }

  /** Knowing the whole series to be clean, or filtering its visible part, comes to the same bars. */
  lemma {:induction false} MarkIsHarmless(cal: Calendar, daily: seq<Bar>, d: Day)
    ensures ValidBars(DailySeries(DailyBefore(cal, daily, d), AllPositive(daily))).bars
         == PositiveCloses(DailyBefore(cal, daily, d))
  {
    var shown := DailyBefore(cal, daily, d);
    if AllPositive(daily) {
      forall b | b in shown ensures b.close > 0.0 {
        var i :| 0 <= i < |shown| && shown[i] == b;
        assert daily[i] == b;
      }
      PositiveClosesAll(shown);
    }
  }

  // ---------------------------------------------------------------- timeline

  /** In a stamped series the bars closed by T come first. */
  lemma {:induction false} ClosedComeFirst(w: World, bars: seq<Bar>, T: int, i: nat)
    requires Stamped(bars) && i < |bars|
    ensures CloseTime(w, bars[i]) <= T <==> i < ClosedBy(w, bars, T)
  {
    hide ClosedBy;
    var m := ClosedBy(w, bars, T);
    if m < i {
      assert bars[m].timestamp < bars[i].timestamp;
    }
  }

  /** Bars closed by T are the same bars in both worlds. */
  lemma {:induction false} SameBar(w: World, a: LaneData, b: LaneData, T: int, i: nat)
    requires SameLane(w, a, b, T) && i < ClosedBy(w, a.intraday, T)
    ensures i < |a.intraday| && i < |b.intraday| && a.intraday[i] == b.intraday[i]
  {
    hide ClosedBy, NextStamps;
    var m := ClosedBy(w, a.intraday, T);
    assert a.intraday[..m][i] == b.intraday[..m][i];
  }

  /** Two series both reach the i-th bar, with the same stamp, or both end before it. */
  ghost predicate SameAt(a: seq<Bar>, b: seq<Bar>, i: nat) {
    (i < |a| <==> i < |b|) && (i < |a| ==> a[i].timestamp == b[i].timestamp)
  }

  /** Up to so many bars after those, the series have the same stamps. */
  lemma {:induction false} SameStamp(w: World, a: LaneData, b: LaneData, T: int, i: nat)
    requires SameLane(w, a, b, T) && i < ClosedBy(w, a.intraday, T) + Ahead(w)
    ensures SameAt(a.intraday, b.intraday, i)
  {
    hide ClosedBy, Ahead;
    var m := ClosedBy(w, a.intraday, T);
    if i < m {
      SameBar(w, a, b, T, i);
    } else {
      var x, y := NextStamps(w, a.intraday, m), NextStamps(w, b.intraday, m);
      assert i < |a.intraday| <==> i - m < |x|;
      assert i < |b.intraday| <==> i - m < |y|;
      assert i - m < |x| ==> x[i - m] == y[i - m];
    }
  }

  lemma {:induction false} TimeCarriesOver(w: World, v: World, a: LaneData, b: LaneData, T: int, t: int)
    requires SameRules(w, v) && SameLane(w, a, b, T) && t <= T
    requires Stamped(a.intraday) && Stamped(b.intraday)
    ensures t in CloseTimes(w, a.intraday) <==> t in CloseTimes(v, b.intraday)
  {
    hide ClosedBy, SameLane, Stamped;
    var x, y := CloseTimes(w, a.intraday), CloseTimes(v, b.intraday);
    if t in x {
      var i :| 0 <= i < |x| && x[i] == t;
      ClosedComeFirst(w, a.intraday, T, i);
      SameBar(w, a, b, T, i);
      assert y[i] == t;
    }
    if t in y {
      var i :| 0 <= i < |y| && y[i] == t;
      ClosedComeFirst(w, b.intraday, T, i);
      SameCount(w, a, b, T);
      SameBar(w, a, b, T, i);
      assert x[i] == t;
    }
  }

  lemma {:induction false} SameCount(w: World, a: LaneData, b: LaneData, T: int)
    requires SameLane(w, a, b, T)
    ensures ClosedBy(w, a.intraday, T) == ClosedBy(w, b.intraday, T)
  {
  }

  lemma {:induction false} SameTimes(w: World, v: World, T: int, n: nat, t: int)
    requires SameRules(w, v) && SameLanes(w, v, T) && StampedWorld(w) && StampedWorld(v) && n <= |w.lanes| && t <= T
    ensures t in AllTimes(w, n) <==> t in AllTimes(v, n)
  {
    hide SameLane, SameRules, Stamped;
    if n > 0 {
      SameTimes(w, v, T, n - 1, t);
      assert Stamped(w.lanes[n - 1].intraday) && Stamped(v.lanes[n - 1].intraday);
      TimeCarriesOver(w, v, w.lanes[n - 1], v.lanes[n - 1], T, t);
    }
  }

  /** Two increasing lists with the same members up to T begin alike. */
  lemma {:induction false} SameBeginning(x: seq<int>, y: seq<int>, T: int, k: nat)
    requires forall i, j :: 0 <= i < j < |x| ==> x[i] < x[j]
    requires forall i, j :: 0 <= i < j < |y| ==> y[i] < y[j]
    requires forall t :: t <= T ==> (t in x <==> t in y)
    requires k <= |x| && (k > 0 ==> x[k - 1] <= T)
    ensures k <= |y| && x[..k] == y[..k]
  {
    if k > 0 {
      var n := k - 1;
      SameBeginning(x, y, T, n);
      assert x[n] in x && x[n] in y;
      var p :| 0 <= p < |y| && y[p] == x[n];
      assert n > 0 ==> y[n - 1] == y[..n][n - 1] == x[..n][n - 1] == x[n - 1];
      assert p >= n;
      assert y[n] in y && y[n] <= T && y[n] in x;
      var q :| 0 <= q < |x| && x[q] == y[n];
      assert q >= n;
      assert x[n] == y[n];
      assert x[..k] == x[..n] + [x[n]] && y[..k] == y[..n] + [y[n]];
    }
  }

  /** The ticks up to T are the same. */
  lemma {:induction false} SameTimeline(w: World, v: World, T: int, k: nat)
    requires AgreeUpTo(w, v, T) && StampedWorld(w) && StampedWorld(v)
    requires k <= |Timeline(w)| && (k > 0 ==> Timeline(w)[k - 1] <= T)
    ensures k <= |Timeline(v)| && Timeline(w)[..k] == Timeline(v)[..k]
  {
    hide SameLane, StampedWorld, SortedSet;
    forall t | t <= T ensures t in Timeline(w) <==> t in Timeline(v) {
      SameTimes(w, v, T, |w.lanes|, t);
    }
    SameBeginning(Timeline(w), Timeline(v), T, k);
  }

  /** A lane that is due in the first world moves on alike in both. */
  lemma {:induction false} SameFresh(w: World, v: World, a: LaneData, b: LaneData, T: int, lane: Lane, now: int)
    requires SameRules(w, v) && SameLane(w, a, b, T) && LaneDue(w, a, lane.cursor, now) && now <= T
    requires Stamped(a.intraday) && Stamped(b.intraday)
    ensures lane.cursor < |b.intraday| && IsFresh(w, a, lane, now) == IsFresh(v, b, lane, now)
  {
    hide ClosedBy, SameLane, Stamped;
    SameCount(w, a, b, T);
    if lane.cursor >= 0 {
      ClosedComeFirst(w, a.intraday, T, lane.cursor);
      SameBar(w, a, b, T, lane.cursor);
    }
    var next := lane.cursor + 1;
    if next < |a.intraday| {
      ClosedComeFirst(w, a.intraday, T, next);
    }
    if next < |b.intraday| {
      ClosedComeFirst(w, b.intraday, T, next);
    }
    if next < ClosedBy(w, a.intraday, T) {
      SameBar(w, a, b, T, next);
    }
  }

  lemma {:induction false} SameAdvance(w: World, v: World, T: int, lanes: seq<Lane>, now: int)
    requires AgreeUpTo(w, v, T) && Fits(w, lanes) && Due(w, lanes, now) && now <= T
    requires StampedWorld(w) && StampedWorld(v)
    ensures Fits(v, lanes)
    ensures Advance(w, lanes, now) == Advance(v, lanes, now)
    ensures FreshLanes(w, lanes, now) == FreshLanes(v, lanes, now)
  {
    hide SameContexts, SameLedger, SameLane, LaneDue, IsFresh, Stamped;
    forall i | 0 <= i < |lanes|
      ensures -1 <= lanes[i].cursor < |v.lanes[i].intraday|
      ensures IsFresh(w, w.lanes[i], lanes[i], now) == IsFresh(v, v.lanes[i], lanes[i], now)
    {
      SameFresh(w, v, w.lanes[i], v.lanes[i], T, lanes[i], now);
    }
  }

  // ---------------------------------------------------------------- quotes, fills and exits

  lemma {:induction false} SameQuote(w: World, v: World, T: int, occSymbol: Option<Symbol>, asOf: int)
    requires SameLedger(w, v, T) && asOf <= T
    ensures QuoteAt(w, occSymbol, asOf) == QuoteAt(v, occSymbol, asOf)
  {
    if w.ledger.Some? && occSymbol.Some? {
      LookupsIgnoreTheFuture(w.ledger.value, occSymbol.value, asOf, T);
      LookupsIgnoreTheFuture(v.ledger.value, occSymbol.value, asOf, T);
    }
  }

  lemma {:induction false} SameFillPrice(w: World, v: World, T: int, order: Order, bar: Bar)
    requires SameRules(w, v) && SameLedger(w, v, T) && CloseTime(w, bar) <= T
    ensures FillPrice(w, order, bar) == FillPrice(v, order, bar)
  {
    hide QuoteAt, SameLedger;
    SameQuote(w, v, T, order.optionSymbol, CloseTime(w, bar));
  }

  lemma {:induction false} SameResolve(w: World, v: World, T: int, bar: Bar, lane: Lane, book: Book)
    requires SameRules(w, v) && SameLedger(w, v, T) && CloseTime(w, bar) <= T
    ensures ResolveLane(w, bar, lane, book) == ResolveLane(v, bar, lane, book)
  {
    hide FillPrice, SameLedger, CloseTime, Record, StopExitPrice, ProfitTargetPrice, ApplySlippage;
    if lane.order.Some? {
      SameFillPrice(w, v, T, lane.order.value, bar);
    }
    SameResolveOrder(w, v, bar, lane, book);
    SameResolveExits(w, v, bar, ResolveOrder(w, bar, lane, book).lane, ResolveOrder(w, bar, lane, book).book);
  }

  lemma {:induction false} SameResolveOrder(w: World, v: World, bar: Bar, lane: Lane, book: Book)
    requires SameRules(w, v) &&
      (lane.order.Some? ==> FillPrice(w, lane.order.value, bar) == FillPrice(v, lane.order.value, bar))
    ensures ResolveOrder(w, bar, lane, book) == ResolveOrder(v, bar, lane, book)
  {
    hide FillPrice;
  }

  lemma {:induction false} SameResolveExits(w: World, v: World, bar: Bar, lane: Lane, book: Book)
    requires SameRules(w, v)
    ensures ResolveExits(w, bar, lane, book) == ResolveExits(v, bar, lane, book)
  {
    hide StopExitPrice, ProfitTargetPrice, ApplySlippage, Record;
  }

  lemma {:induction false} SameResolveStep(w: World, v: World, T: int, before: State, i: nat)
    requires SameRules(w, v) && SameLanes(w, v, T) && SameLedger(w, v, T) && StampedWorld(w)
    requires i < |w.lanes| == |before.lanes| && 0 <= before.lanes[i].cursor < |w.lanes[i].intraday|
    requires CloseTime(w, w.lanes[i].intraday[before.lanes[i].cursor]) <= T
    ensures before.lanes[i].cursor < |v.lanes[i].intraday|
    ensures ResolveLane(w, w.lanes[i].intraday[before.lanes[i].cursor], before.lanes[i], before.book)
         == ResolveLane(v, v.lanes[i].intraday[before.lanes[i].cursor], before.lanes[i], before.book)
  {
    hide ResolveLane, SameLedger, SameRules, CloseTime, SameLane, Stamped;
    ClosedComeFirst(w, w.lanes[i].intraday, T, before.lanes[i].cursor);
    SameBar(w, w.lanes[i], v.lanes[i], T, before.lanes[i].cursor);
    SameResolve(w, v, T, w.lanes[i].intraday[before.lanes[i].cursor], before.lanes[i], before.book);
  }

  lemma {:induction false} SameResolveLanes(w: World, v: World, T: int, st: State, moved: seq<bool>, n: nat)
    requires SameRules(w, v) && SameLanes(w, v, T) && SameLedger(w, v, T) && StampedWorld(w)
    requires Fits(w, st.lanes) && Fits(v, st.lanes) && |moved| == |st.lanes| && n <= |moved|
    requires forall i :: 0 <= i < |moved| && moved[i] && st.lanes[i].cursor >= 0 ==>
               CloseTime(w, w.lanes[i].intraday[st.lanes[i].cursor]) <= T
    ensures ResolveLanes(w, st, moved, n) == ResolveLanes(v, st, moved, n)
  {
    hide ResolveLane, SameLedger, SameRules, SameLanes, CloseTime, StampedWorld;
    if n > 0 {
      SameResolveLanes(w, v, T, st, moved, n - 1);
      var before := ResolveLanes(w, st, moved, n - 1);
      if moved[n - 1] && before.lanes[n - 1].cursor >= 0 {
        SameResolveStep(w, v, T, before, n - 1);
      }
    }
  }

  // ---------------------------------------------------------------- what a strategy sees

  /** Two mappings over the same lanes have the same keys, filled from the same lanes. */
  lemma {:induction false} RelateEligible<V(!new)>(
    a: seq<LaneData>, b: seq<LaneData>, lanes: seq<Lane>, f: (LaneData, Lane) -> V, g: (LaneData, Lane) -> V, x: Symbol)
    requires |a| == |b| == |lanes| && forall i :: 0 <= i < |a| ==> a[i].symbol == b[i].symbol
    ensures var m, n := ByEligible(a, lanes, f), ByEligible(b, lanes, g);
            && (x in m <==> x in n)
            && (x in m ==> exists i ::
               0 <= i < |a| && lanes[i].cursor >= 0 && m[x] == f(a[i], lanes[i]) && n[x] == g(b[i], lanes[i]))
  {
    if a != [] {
      var k := |a| - 1;
      RelateEligible(a[..k], b[..k], lanes[..k], f, g, x);
      var m, n := ByEligible(a, lanes, f), ByEligible(b, lanes, g);
      if lanes[k].cursor >= 0 && a[k].symbol == x {
        assert m[x] == f(a[k], lanes[k]) && n[x] == g(b[k], lanes[k]);
      } else if x in m {
        var i :| 0 <= i < k && lanes[..k][i].cursor >= 0
              && ByEligible(a[..k], lanes[..k], f)[x] == f(a[..k][i], lanes[..k][i])
              && ByEligible(b[..k], lanes[..k], g)[x] == g(b[..k][i], lanes[..k][i]);
        assert m[x] == f(a[i], lanes[i]) && n[x] == g(b[i], lanes[i]);
      }
    }
  }

  lemma {:induction false} SameEligibleMap<V(!new)>(
    a: seq<LaneData>, b: seq<LaneData>, lanes: seq<Lane>, f: (LaneData, Lane) -> V, g: (LaneData, Lane) -> V)
    requires |a| == |b| == |lanes| && forall i :: 0 <= i < |a| ==> a[i].symbol == b[i].symbol
    requires forall i :: 0 <= i < |a| && lanes[i].cursor >= 0 ==> f(a[i], lanes[i]) == g(b[i], lanes[i])
    ensures ByEligible(a, lanes, f) == ByEligible(b, lanes, g)
  {
    var m, n := ByEligible(a, lanes, f), ByEligible(b, lanes, g);
    forall x ensures (x in m <==> x in n) && (x in m ==> m[x] == n[x]) {
      RelateEligible(a, b, lanes, f, g, x);
    }
    assert m.Keys == n.Keys;
  }

  lemma {:induction false} SameEligibleSymbols(a: seq<LaneData>, b: seq<LaneData>, lanes: seq<Lane>)
    requires |a| == |b| == |lanes| && forall i :: 0 <= i < |a| ==> a[i].symbol == b[i].symbol
    ensures EligibleSymbols(a, lanes) == EligibleSymbols(b, lanes)
    ensures WorkingSymbols(a, lanes) == WorkingSymbols(b, lanes)
  {
    if a != [] {
      SameEligibleSymbols(a[..|a| - 1], b[..|b| - 1], lanes[..|a| - 1]);
    }
  }

  /** A lane in step has completed no more bars than have closed by T. */
  lemma {:induction false} CursorClosed(w: World, a: LaneData, cursor: int, now: int, T: int)
    requires now <= T && LaneInStep(w, a, cursor, now)
    ensures -1 <= cursor < ClosedBy(w, a.intraday, T)
  {
    hide ClosedBy;
  }

  /** The bars a lane has completed by T are the same in both worlds. */
  lemma {:induction false} SameCompleted(w: World, a: LaneData, b: LaneData, lane: Lane, now: int, T: int)
    requires SameLane(w, a, b, T) && now <= T && LaneInStep(w, a, lane.cursor, now)
    ensures lane.cursor < |b.intraday| && Completed(a, lane) == Completed(b, lane)
    ensures lane.cursor >= 0 ==>
      CloseTime(w, a.intraday[lane.cursor]) <= T && a.intraday[lane.cursor] == b.intraday[lane.cursor]
  {
    hide ClosedBy, SameLane;
    CursorClosed(w, a, lane.cursor, now, T);
    forall i | 0 <= i <= lane.cursor ensures i < |b.intraday| && a.intraday[i] == b.intraday[i] {
      SameBar(w, a, b, T, i);
    }
    if lane.cursor >= 0 {
      SameBar(w, a, b, T, lane.cursor);
      assert a.intraday[..lane.cursor + 1] == b.intraday[..lane.cursor + 1];
    }
  }

  lemma {:induction false} SameChains(w: World, v: World, a: LaneData, b: LaneData, lane: Lane, now: int, T: int)
    requires SameRules(w, v) && SameLedger(w, v, T) && SameLane(w, a, b, T) && now <= T &&
      LaneInStep(w, a, lane.cursor, now)
    ensures ChainsSeen(w, a, lane) == ChainsSeen(v, b, lane)
  {
    hide SameLane, LaneInStep;
    SameCompleted(w, a, b, lane, now, T);
    if w.ledger.Some? && lane.cursor >= 0 {
      var asOf := CloseTime(w, a.intraday[lane.cursor]);
      LookupsIgnoreTheFuture(w.ledger.value, "", asOf, T);
      LookupsIgnoreTheFuture(v.ledger.value, "", asOf, T);
    }
  }

  lemma {:induction false} SameMarket(w: World, v: World, day: Day, D: Day)
    requires SameRules(w, v) && SameContexts(w, v, D) && day <= D
    ensures Contexts(w, day) == Contexts(v, day)
    ensures DailyBefore(w.calendar, w.regimeDaily, day) == DailyBefore(v.calendar, v.regimeDaily, day)
  {
    hide DailyBefore;
    SameEarlier(w.calendar, w.regimeDaily, v.regimeDaily, day, D);
    SameEarlier(w.calendar, w.vixDaily, v.vixDaily, day, D);
    forall i | 0 <= i < |w.sectorDaily|
      ensures DailyBefore(w.calendar, w.sectorDaily[i], day) == DailyBefore(v.calendar, v.sectorDaily[i], day)
    {
      SameEarlier(w.calendar, w.sectorDaily[i], v.sectorDaily[i], day, D);
    }
    assert SlicesBefore(w.calendar, w.sectorDaily, day) == SlicesBefore(v.calendar, v.sectorDaily, day);
  }

  lemma {:induction false} SameDailySeries(w: World, a: LaneData, b: LaneData, today: Day, T: int)
    requires SameLane(w, a, b, T) && today <= w.calendar.day(T)
    ensures ValidBars(DailySeries(DailyBefore(w.calendar, a.daily, today), AllPositive(a.daily))).bars
         == ValidBars(DailySeries(DailyBefore(w.calendar, b.daily, today), AllPositive(b.daily))).bars
  {
    hide DailyBefore, AllPositive, ValidBars, PositiveCloses;
    SameEarlier(w.calendar, a.daily, b.daily, today, w.calendar.day(T));
    MarkIsHarmless(w.calendar, a.daily, today);
    MarkIsHarmless(w.calendar, b.daily, today);
  }

  function Cleaned(daily: map<Symbol, DailySeries>): map<Symbol, DailySeries> {
    map s | s in daily :: DailySeries(ValidBars(daily[s]).bars, true)
  }

  lemma {:induction false} SameDaily(w: World, v: World, lanes: seq<Lane>, today: Day, T: int)
    requires SameRules(w, v) && SameLanes(w, v, T) && |lanes| == |w.lanes| && today <= w.calendar.day(T)
    ensures var f := (data: LaneData, lane: Lane) =>
              DailySeries(DailyBefore(w.calendar, data.daily, today), AllPositive(data.daily));
            var g := (data: LaneData, lane: Lane) =>
              DailySeries(DailyBefore(v.calendar, data.daily, today), AllPositive(data.daily));
            Cleaned(ByEligible(w.lanes, lanes, f)) == Cleaned(ByEligible(v.lanes, lanes, g))
  {
    hide DailyBefore, AllPositive, ValidBars;
    var f := (data: LaneData, lane: Lane) =>
      DailySeries(DailyBefore(w.calendar, data.daily, today), AllPositive(data.daily));
    var g := (data: LaneData, lane: Lane) =>
      DailySeries(DailyBefore(v.calendar, data.daily, today), AllPositive(data.daily));
    var m, n := ByEligible(w.lanes, lanes, f), ByEligible(v.lanes, lanes, g);
    forall i | 0 <= i < |w.lanes| ensures w.lanes[i].symbol == v.lanes[i].symbol {
      assert SameLane(w, w.lanes[i], v.lanes[i], T);
    }
    forall x ensures (x in m <==> x in n) && (x in m ==> ValidBars(m[x]).bars == ValidBars(n[x]).bars) {
      RelateEligible(w.lanes, v.lanes, lanes, f, g, x);
      if x in m {
        var i :| 0 <= i < |w.lanes| && lanes[i].cursor >= 0 && m[x] == f(w.lanes[i], lanes[i]) &&
          n[x] == g(v.lanes[i], lanes[i]);
        SameDailySeries(w, w.lanes[i], v.lanes[i], today, T);
      }
    }
    assert m.Keys == n.Keys;
  }

  lemma {:induction false} SameIntraday(w: World, v: World, lanes: seq<Lane>, now: int, T: int)
    requires SameRules(w, v) && SameLanes(w, v, T) && SameLedger(w, v, T) && InStep(w, lanes, now) && now <= T
    ensures ByEligible(w.lanes, lanes, Completed) == ByEligible(v.lanes, lanes, Completed)
    ensures ByEligible(w.lanes, lanes, (data: LaneData, lane: Lane) => ChainsSeen(w, data, lane))
         == ByEligible(v.lanes, lanes, (data: LaneData, lane: Lane) => ChainsSeen(v, data, lane))
    ensures EligibleSymbols(w.lanes, lanes) == EligibleSymbols(v.lanes, lanes)
    ensures WorkingSymbols(w.lanes, lanes) == WorkingSymbols(v.lanes, lanes)
  {
    hide SameRules, SameLedger, LaneInStep, Completed, ChainsSeen, ByEligible, WorkingSymbols;
    forall i | 0 <= i < |w.lanes|
      ensures w.lanes[i].symbol == v.lanes[i].symbol
      ensures Completed(w.lanes[i], lanes[i]) == Completed(v.lanes[i], lanes[i])
      ensures ChainsSeen(w, w.lanes[i], lanes[i]) == ChainsSeen(v, v.lanes[i], lanes[i])
    {
      assert SameLane(w, w.lanes[i], v.lanes[i], T);
      SameCompleted(w, w.lanes[i], v.lanes[i], lanes[i], now, T);
      SameChains(w, v, w.lanes[i], v.lanes[i], lanes[i], now, T);
    }
    SameEligibleSymbols(w.lanes, v.lanes, lanes);
    SameEligibleMap(w.lanes, v.lanes, lanes, Completed, Completed);
    SameEligibleMap(w.lanes, v.lanes, lanes,
      (data: LaneData, lane: Lane) => ChainsSeen(w, data, lane),
      (data: LaneData, lane: Lane) => ChainsSeen(v, data, lane));
  }

  /** Up to the harmless marks, a strategy sees the same in both worlds. */
  lemma {:induction false} SameCycle(w: World, v: World, T: int, st: State, now: int, slot: Slot)
    requires AgreeUpTo(w, v, T) && w.calendar.Valid() && Fits(w, st.lanes) && Fits(v, st.lanes)
    requires InStep(w, st.lanes, now) && now <= T
    ensures Filtered(CycleFor(w, st, now, slot)) == Filtered(CycleFor(v, st, now, slot))
  {
    hide SameLane, SameLedger, InStep, Contexts, ByEligible, EligibleSymbols, WorkingSymbols, Positions, OfStrategy,
      SymbolsOf, DailyBefore, AllPositive, ChainsSeen, Completed, ValidBars;
    var today := w.calendar.day(now);
    SameIntraday(w, v, st.lanes, now, T);
    SameDaily(w, v, st.lanes, today, T);
    SameMarket(w, v, today, w.calendar.day(T));
    var a, b := CycleFor(w, st, now, slot), CycleFor(v, st, now, slot);
    assert Filtered(a).daily == Cleaned(a.daily) && Filtered(b).daily == Cleaned(b.daily);
  }

  // ---------------------------------------------------------------- routing

  ghost predicate SameStretch(a: seq<Bar>, b: seq<Bar>, first: nat, end: int) {
    forall i: nat :: first <= i < end ==> SameAt(a, b, i)
  }

  lemma {:induction false} SameLastBefore(a: seq<Bar>, b: seq<Bar>, first: nat, last: nat, flattenAt: int)
    requires first <= last < |a| && last < |b|
    requires forall i :: first <= i <= last ==> a[i].timestamp == b[i].timestamp
    ensures LastBefore(a, first, last, flattenAt) == LastBefore(b, first, last, flattenAt)
  {
    if last > first {
      SameLastBefore(a, b, first, last - 1, flattenAt);
    }
  }

  lemma {:induction false} SameLastActive(s: Settings, cal: Calendar, a: seq<Bar>, b: seq<Bar>, first: nat)
    requires first < |a| && first < |b| && SameStretch(a, b, first, first + s.activeBars)
    ensures LastActive(s, cal, a, first) == LastActive(s, cal, b, first)
  {
    hide LastBefore;
    var bound := first + s.activeBars - 1;
    var last := if bound < |a| - 1 then bound else |a| - 1;
    assert |a| <= bound ==> SameAt(a, b, |a|);
    assert |b| <= bound ==> SameAt(a, b, |b|);
    if first <= last {
      forall i: nat | first <= i <= last ensures i < |a| && i < |b| && a[i].timestamp == b[i].timestamp {
        assert SameAt(a, b, i);
      }
      SameLastBefore(a, b, first, last, cal.flattenAt(cal.day(a[first].timestamp)));
    }
  }

  /** A closed bar is there in both worlds, and the next one in both or in neither. */
  lemma {:induction false} ReachBoth(w: World, a: LaneData, b: LaneData, T: int, cursor: int)
    requires SameLane(w, a, b, T) && -1 <= cursor < ClosedBy(w, a.intraday, T)
    ensures cursor < |b.intraday|
    ensures SameAt(a.intraday, b.intraday, cursor + 1)
  {
    hide ClosedBy, SameLane, Ahead, SameAt;
    LooksAhead(w);
    if cursor >= 0 {
      SameBar(w, a, b, T, cursor);
    }
    SameStamp(w, a, b, T, cursor + 1);
  }

  lemma {:induction false} SamePlace(
    w: World, v: World, T: int, now: int, a: LaneData, b: LaneData, lane: Lane, book: Book, intent: Intent)
    requires SameRules(w, v) && SameLane(w, a, b, T) && (w.ledger.Some? <==> v.ledger.Some?)
    requires intent.Entry? && now <= T && LaneInStep(w, a, lane.cursor, now)
    ensures lane.cursor < |b.intraday|
    ensures PlaceOrder(w, a, lane, book, intent) == PlaceOrder(v, b, lane, book, intent)
  {
    hide LastActive, SameLane, ClosedBy, LaneInStep, Ahead;
    CursorClosed(w, a, lane.cursor, now, T);
    LooksAhead(w);
    var next := lane.cursor + 1;
    forall i: nat | next <= i < next + Ahead(w) ensures SameAt(a.intraday, b.intraday, i) {
      SameStamp(w, a, b, T, i);
    }
    ReachBoth(w, a, b, T, lane.cursor);
    if next < |a.intraday| {
      SameLastActive(w.settings, w.calendar, a.intraday, b.intraday, next);
    }
  }

  lemma {:induction false} SameEngineExit(
    w: World, v: World, T: int, bar: Bar, lane: Lane, book: Book, strategy: Strategy, reason: string)
    requires SameRules(w, v) && SameLedger(w, v, T) && CloseTime(w, bar) <= T
    ensures EngineExit(w, bar, lane, book, strategy, reason) == EngineExit(v, bar, lane, book, strategy, reason)
  {
    hide QuoteAt, SameLedger, Record, ApplySlippage;
    if lane.position.Some? {
      SameQuote(w, v, T, lane.position.value.optionSymbol, CloseTime(w, bar));
    }
  }

  lemma {:induction false} SameApply(
    w: World, v: World, T: int, now: int, a: LaneData, b: LaneData, lane: Lane, book: Book, moved: bool,
    strategy: Strategy, intent: Intent)
    requires SameRules(w, v) && SameLane(w, a, b, T) && SameLedger(w, v, T) && now <= T &&
      LaneInStep(w, a, lane.cursor, now)
    ensures lane.cursor < |b.intraday|
    ensures Apply(w, a, lane, book, moved, strategy, intent) == Apply(v, b, lane, book, moved, strategy, intent)
  {
    hide ClosedBy, NextStamps;
    SameCompleted(w, a, b, lane, now, T);
    match intent
    case Entry(_, _, _, _, _, _, _, _) =>
      SamePlace(w, v, T, now, a, b, lane, book, intent);
      hide PlaceOrder, SameRules, SameLane, SameLedger;
    case Exit(_, _, reason) =>
      hide EngineExit;
      if lane.cursor >= 0 {
        SameEngineExit(w, v, T, a.intraday[lane.cursor], lane, book, strategy, reason);
      }
    case UpdateStop(_, _, _, _) =>
  }

  lemma {:induction false} SameIndex(a: seq<LaneData>, b: seq<LaneData>, symbol: Symbol)
    requires |a| == |b| && forall i :: 0 <= i < |a| ==> a[i].symbol == b[i].symbol
    ensures LaneIndex(a, symbol) == LaneIndex(b, symbol)
  {
    if a != [] && a[0].symbol != symbol {
      SameIndex(a[1..], b[1..], symbol);
    }
  }

  lemma {:induction false} SameRoute(
    w: World, v: World, T: int, now: int, st: State, moved: seq<bool>, strategy: Strategy, intent: Intent)
    requires AgreeUpTo(w, v, T) && Fits(w, st.lanes) && Fits(v, st.lanes) && |moved| == |st.lanes|
    requires InStep(w, st.lanes, now) && now <= T
    ensures Route(w, st, moved, strategy, intent) == Route(v, st, moved, strategy, intent)
  {
    forall i | 0 <= i < |w.lanes| ensures w.lanes[i].symbol == v.lanes[i].symbol {
      assert SameLane(w, w.lanes[i], v.lanes[i], T);
    }
    SameIndex(w.lanes, v.lanes, intent.LaneSymbol());
    var k := LaneIndex(w.lanes, intent.LaneSymbol());
    if k < |w.lanes| {
      assert LaneInStep(w, w.lanes[k], st.lanes[k].cursor, now) && SameLane(w, w.lanes[k], v.lanes[k], T);
      hide SameRules, SameLedger, SameContexts, SameLane, LaneInStep, Apply;
      SameApply(w, v, T, now, w.lanes[k], v.lanes[k], st.lanes[k], st.book, moved[k], strategy, intent);
    }
  }

  /** The same state, with cursors that fit both worlds and stand where the clock puts them. */
  ghost predicate Common(w: World, v: World, lanes: seq<Lane>, now: int) {
    Fits(w, lanes) && Fits(v, lanes) && InStep(w, lanes, now)
  }

  lemma {:induction false} CommonCursors(w: World, v: World, a: seq<Lane>, b: seq<Lane>, now: int)
    requires Common(w, v, a, now) && SameCursors(a, b)
    ensures Common(w, v, b, now)
  {
    CursorsInStep(w, a, b, now);
  }

  lemma {:induction false} SameRouteAll(
    w: World, v: World, T: int, now: int, st: State, moved: seq<bool>, strategy: Strategy, intents: seq<Intent>, n: nat)
    requires AgreeUpTo(w, v, T) && Common(w, v, st.lanes, now) && |moved| == |st.lanes| && now <= T && n <= |intents|
    ensures RouteAll(w, st, moved, strategy, intents, n) == RouteAll(v, st, moved, strategy, intents, n)
    ensures Common(w, v, RouteAll(w, st, moved, strategy, intents, n).lanes, now)
  {
    hide AgreeUpTo, Route;
    var after := RouteAll(w, st, moved, strategy, intents, n);
    CommonCursors(w, v, st.lanes, after.lanes, now);
    hide InStep;
    if n > 0 {
      SameRouteAll(w, v, T, now, st, moved, strategy, intents, n - 1);
      SameRoute(w, v, T, now, RouteAll(w, st, moved, strategy, intents, n - 1), moved, strategy, intents[n - 1]);
    }
  }

  // ---------------------------------------------------------------- ticks

  lemma {:induction false} SameDecision(w: World, v: World, T: int, st: State, now: int, j: nat)
    requires AgreeUpTo(w, v, T) && Causal(w) && Common(w, v, st.lanes, now) && now <= T && j < |w.slots|
    ensures w.slots[j].decide(CycleFor(w, st, now, w.slots[j])) == v.slots[j].decide(CycleFor(v, st, now, v.slots[j]))
  {
    hide CycleFor, Filtered;
    SameCycle(w, v, T, st, now, w.slots[j]);
    assert IgnoresMarks(w.slots[j]);
  }

  lemma {:induction false} SameRunSlot(w: World, v: World, T: int, st: State, now: int, moved: seq<bool>, j: nat)
    requires AgreeUpTo(w, v, T) && Causal(w) && Common(w, v, st.lanes, now) && |moved| == |st.lanes| && now <= T
    requires j < |w.slots| == |v.slots|
    ensures RunSlot(w, st, now, moved, w.slots[j]) == RunSlot(v, st, now, moved, v.slots[j])
    ensures Common(w, v, RunSlot(w, st, now, moved, w.slots[j]).lanes, now)
  {
    hide AgreeUpTo, Causal, CycleFor, RouteAll, InStep;
    SameSlots(w, v, T);
    var slot := w.slots[j];
    CommonCursors(w, v, st.lanes, RunSlot(w, st, now, moved, slot).lanes, now);
    hide Common;
    SameDecision(w, v, T, st, now, j);
    var intents := slot.decide(CycleFor(w, st, now, slot));
    if intents.Success? {
      SameRouteAll(w, v, T, now, st, moved, slot.name, intents.value, |intents.value|);
    }
  }

  lemma {:induction false} SameRunSlots(w: World, v: World, T: int, st: State, now: int, moved: seq<bool>, n: nat)
    requires AgreeUpTo(w, v, T) && Causal(w) && Common(w, v, st.lanes, now) && |moved| == |st.lanes| && now <= T &&
      n <= |w.slots|
    ensures |v.slots| == |w.slots| && RunSlots(w, st, now, moved, n) == RunSlots(v, st, now, moved, n)
    ensures Common(w, v, RunSlots(w, st, now, moved, n).lanes, now)
  {
    hide AgreeUpTo, Causal, RunSlot, Common;
    SameSlots(w, v, T);
    FitsBoth(w, v, st.lanes, now);
    if n > 0 {
      SameRunSlots(w, v, T, st, now, moved, n - 1);
      SameRunSlot(w, v, T, RunSlots(w, st, now, moved, n - 1), now, moved, n - 1);
    }
  }

  lemma {:induction false} FitsBoth(w: World, v: World, lanes: seq<Lane>, now: int)
    requires Common(w, v, lanes, now)
    ensures Fits(w, lanes) && Fits(v, lanes)
  {
  }

  lemma {:induction false} SameSlots(w: World, v: World, T: int)
    requires AgreeUpTo(w, v, T)
    ensures w.slots == v.slots && |w.lanes| == |v.lanes| && w.startingEquity == v.startingEquity
  {
  }

  lemma {:induction false} SameResolved(w: World, v: World, T: int, st: State, now: int)
    requires AgreeUpTo(w, v, T) && StampedWorld(w) && StampedWorld(v)
    requires Fits(w, st.lanes) && Due(w, st.lanes, now) && now <= T
    ensures Fits(v, st.lanes) && Resolved(w, st, now) == Resolved(v, st, now)
    ensures Common(w, v, Resolved(w, st, now).lanes, now)
    ensures FreshLanes(w, st.lanes, now) == FreshLanes(v, st.lanes, now)
  {
    SameAdvance(w, v, T, st.lanes, now);
    AdvanceReaches(w, st.lanes, now);
    hide StampedWorld, Due, IsFresh, ResolveLanes, SameRules, SameLanes, SameContexts, SameLedger;
    var moved, lanes := FreshLanes(w, st.lanes, now), Advance(w, st.lanes, now);
    forall i | 0 <= i < |lanes| && moved[i] && lanes[i].cursor >= 0
      ensures CloseTime(w, w.lanes[i].intraday[lanes[i].cursor]) <= T
    {
      assert LaneInStep(w, w.lanes[i], lanes[i].cursor, now);
    }
    SameResolveLanes(w, v, T, State(lanes, st.book), moved, |lanes|);
    CommonCursors(w, v, lanes, Resolved(w, st, now).lanes, now);
  }

  lemma {:induction false} SameTick(w: World, v: World, T: int, st: State, now: int)
    requires AgreeUpTo(w, v, T) && Causal(w) && StampedWorld(v)
    requires Fits(w, st.lanes) && Due(w, st.lanes, now) && now <= T
    ensures Fits(v, st.lanes) && Tick(w, st, now) == Tick(v, st, now)
  {
    hide AgreeUpTo, Due, Resolved, RunSlots, FreshLanes, Common;
    SameResolved(w, v, T, st, now);
    SameSlots(w, v, T);
    SameRunSlots(w, v, T, Resolved(w, st, now), now, FreshLanes(w, st.lanes, now), |w.slots|);
  }

  /** Two worlds that agree up to T have gone through the same ticks and states up to T. */
  lemma {:induction false} NoLookAhead(w: World, v: World, T: int, k: nat)
    requires AgreeUpTo(w, v, T) && Causal(w) && StampedWorld(v) && k <= |Timeline(w)|
    requires k > 0 ==> Timeline(w)[k - 1] <= T
    ensures k <= |Timeline(v)| && Timeline(v)[..k] == Timeline(w)[..k] && After(w, k) == After(v, k)
  {
    hide AgreeUpTo, Causal, Timeline, Tick, Due, StampedWorld, Fits;
    CausalIsStamped(w);
    SameTimeline(w, v, T, k);
    SameSlots(w, v, T);
    if k > 0 {
      TimelineRises(w, k - 1);
      NoLookAhead(w, v, T, k - 1);
      TicksAreDue(w, k - 1);
      SameTick(w, v, T, After(w, k - 1), Timeline(w)[k - 1]);
      assert Timeline(v)[..k][k - 1] == Timeline(w)[..k][k - 1];
    }
  }

  lemma {:induction false} CausalIsStamped(w: World)
    requires Causal(w)
    ensures StampedWorld(w)
  {
  }

  lemma {:induction false} TimelineRises(w: World, k: nat)
    requires k < |Timeline(w)|
    ensures k > 0 ==> Timeline(w)[k - 1] < Timeline(w)[k]
  {
  }

  /** They also agree between any two strategies and any two intents of those ticks. */
  lemma {:induction false} NoLookAheadWithin(w: World, v: World, T: int, k: nat, j: nat, n: nat)
    requires AgreeUpTo(w, v, T) && Causal(w) && StampedWorld(v)
    requires k < |Timeline(w)| && Timeline(w)[k] <= T && j <= |w.slots|
    ensures k < |Timeline(v)| && Timeline(v)[..k + 1] == Timeline(w)[..k + 1] && w.slots == v.slots
    ensures During(w, k, j, n) == During(v, k, j, n)
  {
    hide AgreeUpTo, Causal, Timeline, After, Due, Resolved, RunSlots, FreshLanes, PartSlot, Common, StampedWorld;
    CausalIsStamped(w);
    TimelineRises(w, k);
    NoLookAhead(w, v, T, k);
    SameTimeline(w, v, T, k + 1);
    assert Timeline(v)[..k + 1][k] == Timeline(w)[..k + 1][k];
    SameSlots(w, v, T);
    TicksAreDue(w, k);
    var st, now := After(w, k), Timeline(w)[k];
    SameResolved(w, v, T, st, now);
    var moved, resolved := FreshLanes(w, st.lanes, now), Resolved(w, st, now);
    SameRunSlots(w, v, T, resolved, now, moved, j);
    if j < |w.slots| {
      SamePartSlot(w, v, T, RunSlots(w, resolved, now, moved, j), now, moved, j, n);
    }
  }

  lemma {:induction false} SamePartSlot(
    w: World, v: World, T: int, st: State, now: int, moved: seq<bool>, j: nat, n: nat)
    requires AgreeUpTo(w, v, T) && Causal(w) && Common(w, v, st.lanes, now) && |moved| == |st.lanes| && now <= T
    requires j < |w.slots| == |v.slots|
    ensures PartSlot(w, st, now, moved, j, n) == PartSlot(v, st, now, moved, j, n)
  {
    hide AgreeUpTo, Causal, CycleFor, RouteAll, InStep;
    SameSlots(w, v, T);
    SameDecision(w, v, T, st, now, j);
    var intents := w.slots[j].decide(CycleFor(w, st, now, w.slots[j]));
    if intents.Success? && n <= |intents.value| {
      SameRouteAll(w, v, T, now, st, moved, w.slots[j].name, intents.value, n);
    }
  }

  // ---------------------------------------------------------------- what agreeing leaves open

  /** In a series in time order, the prefix a strategy is shown is exactly the bars dated before the day. */
  lemma {:induction false} PrefixIsEverythingEarlier(cal: Calendar, daily: seq<Bar>, day: Day, i: nat)
    requires cal.Valid() && i < |daily|
    requires forall a, b :: 0 <= a < b < |daily| ==> daily[a].timestamp <= daily[b].timestamp
    ensures i < |DailyBefore(cal, daily, day)| <==> cal.day(daily[i].timestamp) < day
  {
    hide DailyBefore;
    var shown := DailyBefore(cal, daily, day);
    if i < |shown| {
      assert shown[i] == daily[i] && shown[i] in shown;
    } else {
      assert daily[|shown|].timestamp <= daily[i].timestamp;
    }
  }

  lemma {:induction false} ClosedByPrefix(w: World, a: seq<Bar>, b: seq<Bar>, T: int, m: nat)
    requires m <= |a| && m <= |b| && a[..m] == b[..m] && ClosedBy(w, a, T) == m
    requires m < |b| ==> CloseTime(w, b[m]) > T
    ensures ClosedBy(w, b, T) == m
  {
    hide ClosedBy;
    forall i | 0 <= i < m ensures a[i] == b[i] {
      assert a[..m][i] == b[..m][i];
    }
  }

  /** Any bar that closes after T may be replaced by any other bar of the same stamp. */
  lemma {:induction false} LaterBarsAreFree(w: World, T: int, i: nat, b: nat, other: Bar)
    requires i < |w.lanes| && ClosedBy(w, w.lanes[i].intraday, T) <= b < |w.lanes[i].intraday|
    requires other.timestamp == w.lanes[i].intraday[b].timestamp
    ensures AgreeUpTo(w, w.(lanes := w.lanes[i := w.lanes[i].(intraday := w.lanes[i].intraday[b := other])]), T)
  {
    hide DailyBefore, ClosedBy;
    var bars := w.lanes[i].intraday;
    var changed := w.lanes[i].(intraday := bars[b := other]);
    var m := ClosedBy(w, bars, T);
    assert bars[..m] == changed.intraday[..m];
    ClosedByPrefix(w, bars, changed.intraday, T, m);
    assert SameLane(w, w.lanes[i], changed, T);
    var v := w.(lanes := w.lanes[i := changed]);
    forall j | 0 <= j < |w.lanes| ensures SameLane(w, w.lanes[j], v.lanes[j], T) {
    }
  }

  /** Beyond the bars the runner looks ahead to, a series may go on in any way, or end. */
  lemma {:induction false} FartherBarsAreFree(w: World, T: int, i: nat, kept: nat, tail: seq<Bar>)
    requires i < |w.lanes|
    requires ClosedBy(w, w.lanes[i].intraday, T) + Ahead(w) <= kept <= |w.lanes[i].intraday|
    ensures AgreeUpTo(w, w.(lanes := w.lanes[i := w.lanes[i].(intraday := w.lanes[i].intraday[..kept] + tail)]), T)
  {
    hide DailyBefore, ClosedBy, Ahead;
    var bars := w.lanes[i].intraday;
    var changed := w.lanes[i].(intraday := bars[..kept] + tail);
    var m := ClosedBy(w, bars, T);
    assert bars[..m] == changed.intraday[..m];
    LooksAhead(w);
    ClosedByPrefix(w, bars, changed.intraday, T, m);
    assert NextStamps(w, bars, m) == NextStamps(w, changed.intraday, m);
    assert SameLane(w, w.lanes[i], changed, T);
    var v := w.(lanes := w.lanes[i := changed]);
    forall j | 0 <= j < |w.lanes| ensures SameLane(w, w.lanes[j], v.lanes[j], T) {
    }
  }

  lemma {:induction false} LooksAhead(w: World)
    ensures Ahead(w) >= 1 && Ahead(w) >= w.settings.activeBars
  {
  }
}
