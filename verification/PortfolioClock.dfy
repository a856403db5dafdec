/** The merged timeline: every bar is reached exactly once, at the tick of its close. */
module PortfolioClock {
  import opened Domain
  import opened EngineTypes
  import opened Portfolio
  import opened PortfolioLane

  ghost predicate StampedWorld(w: World) {
    forall i :: 0 <= i < |w.lanes| ==> Stamped(w.lanes[i].intraday)
  }

  /** A lane's completed bars are exactly those that have closed by now. */
  ghost predicate LaneInStep(w: World, data: LaneData, cursor: int, now: int) {
    && -1 <= cursor < |data.intraday|
    && forall b :: 0 <= b < |data.intraday| ==> (b <= cursor <==> CloseTime(w, data.intraday[b]) <= now)
  }

  /** Everything before the next bar has closed before now, and nothing later closes before now. */
  ghost predicate LaneDue(w: World, data: LaneData, cursor: int, now: int) {
    && -1 <= cursor < |data.intraday|
    && forall b :: 0 <= b < |data.intraday| ==> (b <= cursor <==> CloseTime(w, data.intraday[b]) < now)
  }

  ghost predicate InStep(w: World, lanes: seq<Lane>, now: int) {
    |lanes| == |w.lanes| && forall i :: 0 <= i < |lanes| ==> LaneInStep(w, w.lanes[i], lanes[i].cursor, now)
  }

  ghost predicate Due(w: World, lanes: seq<Lane>, now: int) {
    |lanes| == |w.lanes| && forall i :: 0 <= i < |lanes| ==> LaneDue(w, w.lanes[i], lanes[i].cursor, now)
  }

  lemma {:induction false} LaneReaches(w: World, data: LaneData, lane: Lane, now: int)
    requires Stamped(data.intraday) && LaneDue(w, data, lane.cursor, now)
    ensures LaneInStep(w, data, if IsFresh(w, data, lane, now) then lane.cursor + 1 else lane.cursor, now)
    ensures IsFresh(w, data, lane, now) <==> exists b ::
      0 <= b < |data.intraday| && CloseTime(w, data.intraday[b]) == now
  {
    var next := lane.cursor + 1;
    if next < |data.intraday| {
      assert CloseTime(w, data.intraday[next]) >= now;
      forall b | next < b < |data.intraday| ensures CloseTime(w, data.intraday[b]) > now {
        assert data.intraday[next].timestamp < data.intraday[b].timestamp;
      }
    }
  }

  lemma {:induction false} AdvanceReaches(w: World, lanes: seq<Lane>, now: int)
    requires StampedWorld(w) && Fits(w, lanes) && Due(w, lanes, now)
    ensures InStep(w, Advance(w, lanes, now), now)
  {
    hide LaneDue, LaneInStep, IsFresh;
    var after := Advance(w, lanes, now);
    forall i | 0 <= i < |after| ensures LaneInStep(w, w.lanes[i], after[i].cursor, now) {
      assert LaneDue(w, w.lanes[i], lanes[i].cursor, now);
      LaneReaches(w, w.lanes[i], lanes[i], now);
    }
  }

  lemma {:induction false} TimesOfLane(w: World, n: nat, i: nat, b: nat)
    requires i < n <= |w.lanes| && b < |w.lanes[i].intraday|
    ensures CloseTime(w, w.lanes[i].intraday[b]) in AllTimes(w, n)
  {
    hide CloseTime;
    if i == n - 1 {
      assert CloseTimes(w, w.lanes[i].intraday)[b] == CloseTime(w, w.lanes[i].intraday[b]);
    } else {
      TimesOfLane(w, n - 1, i, b);
    }
  }

  lemma {:induction false} LaneOfTime(w: World, n: nat, t: int)
    requires n <= |w.lanes| && t in AllTimes(w, n)
    ensures exists i, b :: 0 <= i < n && 0 <= b < |w.lanes[i].intraday| && CloseTime(w, w.lanes[i].intraday[b]) == t
  {
    if t in CloseTimes(w, w.lanes[n - 1].intraday) {
      var b :| 0 <= b < |w.lanes[n - 1].intraday| && CloseTimes(w, w.lanes[n - 1].intraday)[b] == t;
      assert CloseTime(w, w.lanes[n - 1].intraday[b]) == t;
    } else {
      LaneOfTime(w, n - 1, t);
      var i, b :| 0 <= i < n - 1 && 0 <= b < |w.lanes[i].intraday| && CloseTime(w, w.lanes[i].intraday[b]) == t;
    }
  }

  /** No bar closes strictly between two neighbouring ticks. */
  lemma {:induction false} StepIsDue(w: World, lanes: seq<Lane>, k: nat)
    requires 0 < k < |Timeline(w)| && InStep(w, lanes, Timeline(w)[k - 1])
    ensures Due(w, lanes, Timeline(w)[k])
  {
    hide CloseTime;
    var line := Timeline(w);
    forall i, b | 0 <= i < |lanes| && 0 <= b < |w.lanes[i].intraday|
      ensures b <= lanes[i].cursor <==> CloseTime(w, w.lanes[i].intraday[b]) < line[k]
    {
      assert LaneInStep(w, w.lanes[i], lanes[i].cursor, line[k - 1]);
      var t := CloseTime(w, w.lanes[i].intraday[b]);
      TimesOfLane(w, |w.lanes|, i, b);
      var m :| 0 <= m < |line| && line[m] == t;
      assert m <= k - 1 || m >= k;
    }
    forall i | 0 <= i < |lanes| ensures LaneDue(w, w.lanes[i], lanes[i].cursor, line[k]) {
      assert LaneInStep(w, w.lanes[i], lanes[i].cursor, line[k - 1]);
    }
  }

  lemma {:induction false} StartIsDue(w: World)
    requires |Timeline(w)| > 0
    ensures Due(w, Start(w).lanes, Timeline(w)[0])
  {
    hide CloseTime;
    var line := Timeline(w);
    forall i, b | 0 <= i < |w.lanes| && 0 <= b < |w.lanes[i].intraday|
      ensures CloseTime(w, w.lanes[i].intraday[b]) >= line[0]
    {
      TimesOfLane(w, |w.lanes|, i, b);
      var m :| 0 <= m < |line| && line[m] == CloseTime(w, w.lanes[i].intraday[b]);
    }
  }

  predicate SameCursors(a: seq<Lane>, b: seq<Lane>) {
    |a| == |b| && forall i :: 0 <= i < |a| ==> a[i].cursor == b[i].cursor
  }

  lemma {:induction false} CursorsInStep(w: World, a: seq<Lane>, b: seq<Lane>, now: int)
    requires InStep(w, a, now) && SameCursors(a, b)
    ensures InStep(w, b, now)
  {
    hide LaneInStep;
    forall i | 0 <= i < |b| ensures LaneInStep(w, w.lanes[i], b[i].cursor, now) {
      assert LaneInStep(w, w.lanes[i], a[i].cursor, now);
    }
  }

  lemma {:induction false} TickCursors(w: World, st: State, now: int)
    requires Fits(w, st.lanes)
    ensures SameCursors(Advance(w, st.lanes, now), Resolved(w, st, now).lanes)
    ensures SameCursors(Advance(w, st.lanes, now), Tick(w, st, now).lanes)
  {
    hide IsFresh, ResolveLanes, RunSlots;
  }

  lemma {:induction false} DuringCursors(w: World, k: nat, j: nat, n: nat)
    requires k < |Timeline(w)| && j <= |w.slots|
    ensures SameCursors(Advance(w, After(w, k).lanes, Timeline(w)[k]), During(w, k, j, n).lanes)
  {
    hide IsFresh, ResolveLanes, RunSlots, Timeline, After, PartSlot, Advance;
    var st, now := After(w, k), Timeline(w)[k];
    hide Tick;
    TickCursors(w, st, now);
    hide Resolved;
  }

  lemma {:induction false} TicksAreDue(w: World, k: nat)
    requires StampedWorld(w) && k < |Timeline(w)|
    ensures Due(w, After(w, k).lanes, Timeline(w)[k])
  {
    hide Timeline, Tick, LaneDue, LaneInStep, Start, Advance;
    if k == 0 {
      StartIsDue(w);
    } else {
      TicksAreDue(w, k - 1);
      var st, now := After(w, k - 1), Timeline(w)[k - 1];
      AdvanceReaches(w, st.lanes, now);
      TickCursors(w, st, now);
      CursorsInStep(w, Advance(w, st.lanes, now), After(w, k).lanes, now);
      StepIsDue(w, After(w, k).lanes, k);
    }
  }

  /** At every point of tick k each lane has completed exactly the bars that closed by then. */
  lemma {:induction false} CursorsKeepStep(w: World, k: nat, j: nat, n: nat)
    requires StampedWorld(w) && k < |Timeline(w)| && j <= |w.slots|
    ensures InStep(w, During(w, k, j, n).lanes, Timeline(w)[k])
  {
    hide Timeline, After, During, InStep, Due, Advance;
    TicksAreDue(w, k);
    AdvanceReaches(w, After(w, k).lanes, Timeline(w)[k]);
    DuringCursors(w, k, j, n);
    CursorsInStep(w, Advance(w, After(w, k).lanes, Timeline(w)[k]), During(w, k, j, n).lanes, Timeline(w)[k]);
  }

  /** A lane has a fresh bar on tick k exactly if one of its bars closes then, and some lane always has one. */
  lemma {:induction false} EveryBarOnce(w: World, k: nat, i: nat)
    requires StampedWorld(w) && k < |Timeline(w)| && i < |w.lanes|
    ensures var st, now := After(w, k), Timeline(w)[k];
            && (FreshLanes(w, st.lanes, now)[i]
                <==> exists b :: 0 <= b < |w.lanes[i].intraday| && CloseTime(w, w.lanes[i].intraday[b]) == now)
            && true in FreshLanes(w, st.lanes, now)
  {
    var st, now := After(w, k), Timeline(w)[k];
    var moved := FreshLanes(w, st.lanes, now);
    assert now in AllTimes(w, |w.lanes|);
    hide Timeline, After, LaneDue, IsFresh, FreshLanes, CloseTime;
    TicksAreDue(w, k);
    assert LaneDue(w, w.lanes[i], st.lanes[i].cursor, now);
    LaneReaches(w, w.lanes[i], st.lanes[i], now);
    LaneOfTime(w, |w.lanes|, now);
    var j, b :| 0 <= j < |w.lanes| && 0 <= b < |w.lanes[j].intraday| && CloseTime(w, w.lanes[j].intraday[b]) == now;
    assert LaneDue(w, w.lanes[j], st.lanes[j].cursor, now);
    LaneReaches(w, w.lanes[j], st.lanes[j], now);
    assert moved[j];
  }
}
