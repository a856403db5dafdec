/** Over a position's life its stop never loosens and its terms never change. */
module PortfolioRatchet {
  import opened Numbers
  import opened Domain
  import opened EngineTypes
  import opened Mechanics
  import opened Portfolio
  import opened PortfolioLane
  import opened PortfolioSafety
  import opened PortfolioRuns
  import opened PortfolioClock

  /** The same position later on: same terms, a stop that is no lower, a high-water mark that is no lower. */
  predicate Continues(p: Position, later: Position) {
    && later == p.(stopPrice := later.stopPrice, trailingActive := later.trailingActive,
       highestPrice := later.highestPrice)
    && later.stopPrice >= p.stopPrice
    && later.highestPrice >= p.highestPrice
  }

  /** A lane's later position continues the earlier one, or was entered on a later bar. */
  ghost predicate Follows(data: LaneData, was: Lane, lane: Lane) {
    && -1 <= was.cursor <= lane.cursor < |data.intraday|
    && (lane.position.Some? ==>
          || (was.position.Some? && Continues(was.position.value, lane.position.value))
          || was.cursor < 0
          || lane.position.value.entryTimestamp > data.intraday[was.cursor].timestamp)
  }

  lemma {:induction false} FollowsItself(data: LaneData, lane: Lane)
    requires -1 <= lane.cursor < |data.intraday|
    ensures Follows(data, lane, lane)
  {
  }

  lemma {:induction false} FollowsOn(data: LaneData, a: Lane, b: Lane, c: Lane)
    requires Stamped(data.intraday) && Follows(data, a, b) && Follows(data, b, c)
    ensures Follows(data, a, c)
  {
    if 0 <= a.cursor < b.cursor {
      assert data.intraday[a.cursor].timestamp < data.intraday[b.cursor].timestamp;
    }
  }

  /** Reaching a bar and resolving it. */
  lemma {:induction false} ResolveFollows(w: World, data: LaneData, was: Lane, lane: Lane, book: Book)
    requires Stamped(data.intraday) && LaneOk(w, data, was, false)
    requires lane == was.(cursor := was.cursor + 1) && lane.cursor < |data.intraday|
    ensures Follows(data, was, ResolveLane(w, data.intraday[lane.cursor], lane, book).lane)
  {
    hide OrderOk, FillPrice, ApplySlippage, StopExitPrice, ProfitTargetPrice, Record, Stamped;
    if was.cursor >= 0 {
      StampsRise(data.intraday, was.cursor);
    }
  }

  lemma {:induction false} StampsRise(bars: seq<Bar>, c: nat)
    requires Stamped(bars) && c + 1 < |bars|
    ensures bars[c].timestamp < bars[c + 1].timestamp
  {
  }

  /** A stop update that is let through raises the stop of a long position. */
  lemma {:induction false} ApplyFollows(
    w: World, data: LaneData, lane: Lane, book: Book, moved: bool, strategy: Strategy, intent: Intent)
    requires LaneOk(w, data, lane, false)
    ensures Follows(data, lane, Apply(w, data, lane, book, moved, strategy, intent).lane)
  {
    hide OrderOk, LastActive, NewOrder, EngineExitPrice, Record;
  }

  ghost predicate AllFollow(w: World, a: seq<Lane>, b: seq<Lane>) {
    && |a| == |b| == |w.lanes|
    && forall i :: 0 <= i < |a| ==> Follows(w.lanes[i], a[i], b[i])
  }

  lemma {:induction false} AllFollowOn(w: World, a: seq<Lane>, b: seq<Lane>, c: seq<Lane>)
    requires StampedWorld(w) && AllFollow(w, a, b) && AllFollow(w, b, c)
    ensures AllFollow(w, a, c)
  {
    hide Follows;
    forall i | 0 <= i < |a| ensures Follows(w.lanes[i], a[i], c[i]) {
      FollowsOn(w.lanes[i], a[i], b[i], c[i]);
    }
  }

  /** The lanes below n have followed, the others stand where Advance left them. */
  lemma {:induction false} ResolveLanesFollow(w: World, st: State, now: int, n: nat)
    requires StampedWorld(w) && Quiet(w, st.lanes) && Fits(w, st.lanes) && n <= |st.lanes|
    ensures var moved := FreshLanes(w, st.lanes, now);
            var start := State(Advance(w, st.lanes, now), st.book);
            forall i :: 0 <= i < n ==> Follows(w.lanes[i], st.lanes[i], ResolveLanes(w, start, moved, n).lanes[i])
  {
    hide Follows, LaneOk, ResolveLane, IsFresh, Stamped;
    var moved, start := FreshLanes(w, st.lanes, now), State(Advance(w, st.lanes, now), st.book);
    if n > 0 {
      ResolveLanesFollow(w, st, now, n - 1);
      var before := ResolveLanes(w, start, moved, n - 1);
      var data, was, lane := w.lanes[n - 1], st.lanes[n - 1], before.lanes[n - 1];
      assert lane == start.lanes[n - 1];
      if moved[n - 1] {
        ResolveFollows(w, data, was, lane, before.book);
      } else {
        FollowsItself(data, was);
      }
    }
  }

  lemma {:induction false} ResolvedFollows(w: World, st: State, now: int)
    requires StampedWorld(w) && Quiet(w, st.lanes) && Fits(w, st.lanes)
    ensures AllFollow(w, st.lanes, Resolved(w, st, now).lanes)
  {
    hide Follows, ResolveLane;
    ResolveLanesFollow(w, st, now, |st.lanes|);
  }

  lemma {:induction false} RouteFollows(w: World, st: State, moved: seq<bool>, strategy: Strategy, intent: Intent)
    requires Quiet(w, st.lanes) && Fits(w, st.lanes) && |moved| == |st.lanes|
    ensures AllFollow(w, st.lanes, Route(w, st, moved, strategy, intent).lanes)
  {
    hide Follows, LaneOk, Apply;
    forall i | 0 <= i < |st.lanes| ensures Follows(w.lanes[i], st.lanes[i], st.lanes[i]) {
      FollowsItself(w.lanes[i], st.lanes[i]);
    }
    var k := LaneIndex(w.lanes, intent.LaneSymbol());
    if k < |w.lanes| {
      assert LaneOk(w, w.lanes[k], st.lanes[k], false);
      ApplyFollows(w, w.lanes[k], st.lanes[k], st.book, moved[k], strategy, intent);
    }
  }

  lemma {:induction false} RouteAllFollows(
    w: World, was: State, now: int, moved: seq<bool>, slot: Slot, intents: seq<Intent>, n: nat)
    requires Usable(w) && Inv(w, was) && Fits(w, was.lanes) && |moved| == |was.lanes| && n <= |intents|
    requires Obeying(w, was, now, slot, intents)
    ensures AllFollow(w, was.lanes, RouteAll(w, was, moved, slot.name, intents, n).lanes)
  {
    hide Usable, Inv, Obeying, Route, AllFollow, StampedWorld, Quiet, Reconciled, AttemptsOk, Routed;
    UsableIsStamped(w);
    if n == 0 {
      assert AllFollow(w, was.lanes, was.lanes) by { EachFollows(w, was.lanes); }
    } else {
      RouteAllFollows(w, was, now, moved, slot, intents, n - 1);
      RouteAllKeeps(w, was, now, moved, slot, intents, n - 1);
      var before := RouteAll(w, was, moved, slot.name, intents, n - 1);
      RouteFollows(w, before, moved, slot.name, intents[n - 1]);
      AllFollowOn(w, was.lanes, before.lanes, Route(w, before, moved, slot.name, intents[n - 1]).lanes);
    }
  }

  lemma {:induction false} EachFollows(w: World, lanes: seq<Lane>)
    requires Fits(w, lanes)
    ensures AllFollow(w, lanes, lanes)
  {
  }

  lemma {:induction false} UsableIsStamped(w: World)
    requires Usable(w)
    ensures StampedWorld(w)
  {
  }

  lemma {:induction false} RunSlotsFollow(w: World, st: State, now: int, moved: seq<bool>, n: nat)
    requires Usable(w) && Inv(w, st) && Fits(w, st.lanes) && |moved| == |st.lanes| && n <= |w.slots|
    ensures AllFollow(w, st.lanes, RunSlots(w, st, now, moved, n).lanes)
  {
    hide Usable, Inv, Obeying, CycleFor, RouteAll, AllFollow, StampedWorld, Timeline;
    UsableIsStamped(w);
    if n == 0 {
      EachFollows(w, st.lanes);
    } else {
      RunSlotsFollow(w, st, now, moved, n - 1);
      RunSlotsKeep(w, st, now, moved, n - 1);
      var before, slot := RunSlots(w, st, now, moved, n - 1), w.slots[n - 1];
      DecideObeys(w, before, now, n - 1);
      var intents := slot.decide(CycleFor(w, before, now, slot));
      if intents.Success? {
        RouteAllFollows(w, before, now, moved, slot, intents.value, |intents.value|);
        AllFollowOn(w, st.lanes, before.lanes,
          RouteAll(w, before, moved, slot.name, intents.value, |intents.value|).lanes);
      }
    }
  }

  lemma {:induction false} DuringFollows(w: World, k: nat, j: nat, n: nat)
    requires Usable(w) && k < |Timeline(w)| && j <= |w.slots|
    ensures AllFollow(w, After(w, k).lanes, During(w, k, j, n).lanes)
  {
    hide Usable, Inv, Timeline, After, RunSlots, FreshLanes, PartSlot, AllFollow, Resolved;
    var st, now := After(w, k), Timeline(w)[k];
    var moved := FreshLanes(w, st.lanes, now);
    TicksKeep(w, k);
    BetweenSlotsFollows(w, st, now, j);
    var between := RunSlots(w, Resolved(w, st, now), now, moved, j);
    if j < |w.slots| {
      UsableIsStamped(w);
      PartSlotFollows(w, between, now, moved, j, n);
      AllFollowOn(w, st.lanes, between.lanes, PartSlot(w, between, now, moved, j, n).lanes);
    }
  }

  lemma {:induction false} BetweenSlotsFollows(w: World, st: State, now: int, j: nat)
    requires Usable(w) && Inv(w, st) && Fits(w, st.lanes) && j <= |w.slots|
    ensures var between := RunSlots(w, Resolved(w, st, now), now, FreshLanes(w, st.lanes, now), j);
            Inv(w, between) && AllFollow(w, st.lanes, between.lanes)
  {
    hide Usable, Inv, RunSlots, FreshLanes, AllFollow, StampedWorld, Resolved;
    UsableIsStamped(w);
    QuietIn(w, st);
    var moved, resolved := FreshLanes(w, st.lanes, now), Resolved(w, st, now);
    ResolvedKeeps(w, st, now);
    ResolvedFollows(w, st, now);
    RunSlotsKeep(w, resolved, now, moved, j);
    RunSlotsFollow(w, resolved, now, moved, j);
    AllFollowOn(w, st.lanes, resolved.lanes, RunSlots(w, resolved, now, moved, j).lanes);
  }

  lemma {:induction false} PartSlotFollows(w: World, st: State, now: int, moved: seq<bool>, j: nat, n: nat)
    requires Usable(w) && Inv(w, st) && Fits(w, st.lanes) && |moved| == |st.lanes| && j < |w.slots|
    ensures AllFollow(w, st.lanes, PartSlot(w, st, now, moved, j, n).lanes)
  {
    hide Usable, Inv, CycleFor, RouteAll, Obeying, AllFollow;
    var slot := w.slots[j];
    EachFollows(w, st.lanes);
    DecideObeys(w, st, now, j);
    var intents := slot.decide(CycleFor(w, st, now, slot));
    if intents.Success? && n <= |intents.value| {
      RouteAllFollows(w, st, now, moved, slot, intents.value, n);
    }
  }

  lemma {:induction false} QuietIn(w: World, st: State)
    requires Inv(w, st)
    ensures Quiet(w, st.lanes)
  {
  }

  lemma {:induction false} OneTickFollows(w: World, st: State, now: int)
    requires Usable(w) && Inv(w, st) && Fits(w, st.lanes)
    ensures AllFollow(w, st.lanes, Tick(w, st, now).lanes)
  {
    hide Usable, Inv, RunSlots, AllFollow, StampedWorld, FreshLanes, Resolved;
    UsableIsStamped(w);
    QuietIn(w, st);
    var moved, resolved := FreshLanes(w, st.lanes, now), Resolved(w, st, now);
    ResolvedKeeps(w, st, now);
    ResolvedFollows(w, st, now);
    BetweenSlotsFollows(w, st, now, |w.slots|);
  }

  lemma {:induction false} TickFollows(w: World, m: nat)
    requires Usable(w) && 0 < m <= |Timeline(w)|
    ensures AllFollow(w, After(w, m - 1).lanes, After(w, m).lanes)
  {
    hide Usable, Inv, Timeline, AllFollow, Tick, Start;
    TicksKeep(w, m - 1);
    OneTickFollows(w, After(w, m - 1), Timeline(w)[m - 1]);
  }

  lemma {:induction false} AfterFollowsItself(w: World, k: nat)
    requires k <= |Timeline(w)|
    ensures AllFollow(w, After(w, k).lanes, After(w, k).lanes)
  {
    hide AllFollow, After;
    EachFollows(w, After(w, k).lanes);
  }

  lemma {:induction false} TicksFollow(w: World, k: nat, m: nat)
    requires Usable(w) && k <= m <= |Timeline(w)|
    ensures AllFollow(w, After(w, k).lanes, After(w, m).lanes)
    decreases m
  {
    hide Usable, Timeline, After, AllFollow, StampedWorld;
    UsableIsStamped(w);
    if k == m {
      AfterFollowsItself(w, k);
    } else {
      TicksFollow(w, k, m - 1);
      TickFollows(w, m);
      AllFollowOn(w, After(w, k).lanes, After(w, m - 1).lanes, After(w, m).lanes);
    }
  }

  /** A position held after tick k and still held at any later point keeps its terms, and its stop has not fallen. */
  lemma {:induction false} StopNeverLoosens(w: World, k: nat, m: nat, j: nat, n: nat, i: nat)
    requires Usable(w) && k <= m < |Timeline(w)| && j <= |w.slots| && i < |w.lanes|
    ensures var was, now := After(w, k).lanes[i].position, During(w, m, j, n).lanes[i].position;
            was.Some? && now.Some? && was.value.entryTimestamp == now.value.entryTimestamp ==>
              Continues(was.value, now.value)
  {
    TicksKeep(w, k);
    hide Usable, Timeline, After, During, StampedWorld, Shared;
    UsableIsStamped(w);
    TicksFollow(w, k, m);
    DuringFollows(w, m, j, n);
    AllFollowOn(w, After(w, k).lanes, After(w, m).lanes, During(w, m, j, n).lanes);
    assert LaneOk(w, w.lanes[i], After(w, k).lanes[i], false);
    assert Follows(w.lanes[i], After(w, k).lanes[i], During(w, m, j, n).lanes[i]);
  }
}
