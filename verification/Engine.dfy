/** evaluate_cycle (core/engine.py): position intents and selected entries in one sorted list. */
module Engine {
  import opened Collections
  import opened Domain
  import opened EngineTypes
  import opened EngineStops
  import opened EngineEntries
  import opened Mechanics
  import opened OptionLedger
  import opened Sorting

  /** The alphabetical order of the intent type names: entry, exit, update_stop. */
  function KindOrder(intent: Intent): int {
    match intent
    case Entry(_, _, _, _, _, _, _, _) => 0
    case Exit(_, _, _) => 1
    case UpdateStop(_, _, _, _) => 2
  }

  predicate IntentBefore(a: Intent, b: Intent) {
    || a.timestamp < b.timestamp
    || (a.timestamp == b.timestamp &&
        (Less(a.symbol, b.symbol) || (a.symbol == b.symbol && KindOrder(a) < KindOrder(b))))
  }

  function EntryIntents(
    s: Settings, cal: Calendar, ind: Indicators, evaluator: Evaluator, strategy: Strategy,
    cycle: CycleInput): Result<seq<Intent>>
    requires s.Valid()
  {
    var slots := AvailableSlots(s, cycle.openCount);
    if RegimeBlocked(s, cycle.regime) || ContextBlocked(s, cycle.context) || slots == 0 then Success([])
    else
      var candidates := Candidates(s, cal, ind, evaluator, strategy, cycle, |cycle.symbols|);
      if candidates.Failure? then Failure
      else Success(SelectedFrom(s, cycle, candidates.value, slots).chosen)
  }

  function EvaluateCycle(
    s: Settings, cal: Calendar, ind: Indicators, evaluator: Evaluator, strategy: Strategy,
    cycle: CycleInput): Result<seq<Intent>>
    requires s.Valid()
  {
    var clean := Filtered(cycle);
    var entries := EntryIntents(s, cal, ind, evaluator, strategy, clean);
    if entries.Failure? then Failure
    else Success(SortBy(PositionIntents(s, cal, ind, clean) + entries.value, IntentBefore))
  }

  method RunCycle(
    s: Settings, cal: Calendar, ind: Indicators, evaluator: Evaluator, strategy: Strategy, cycle: CycleInput)
    returns (intents: Result<seq<Intent>>)
    requires s.Valid()
    ensures intents == EvaluateCycle(s, cal, ind, evaluator, strategy, cycle)
  {
    hide PositionIntents, Candidates, Rank, Select, RegimeBlocked, ContextBlocked, OpenExposure;
    var clean := Filtered(cycle);
    var emitted := RunPositionPasses(s, cal, ind, clean);
    var slots := AvailableSlots(s, clean.openCount);
    if !RegimeBlocked(s, clean.regime) && !ContextBlocked(s, clean.context) && slots > 0 {
      var start := OpenExposure(clean.equity, clean.positions);
      var candidates := CollectCandidates(s, cal, ind, evaluator, strategy, clean);
      if candidates.Failure? {
        return Failure;
      }
      var selection := SelectGreedily(Rank(candidates.value, s.rankMode), slots, s.maxExposurePct, clean.equity, start);
      emitted := emitted + selection.chosen;
    } else {
      assert emitted + [] == emitted;
    }
    return Success(SortBy(emitted, IntentBefore));
  }

  // ---------------------------------------------------------------- what a cycle may ask for

  function EntryCount(intents: seq<Intent>): nat {
    if intents == [] then 0 else EntryCount(intents[..|intents| - 1]) + if intents[|intents| - 1].Entry? then 1 else 0
  }

  /** Two entries never go to the same lane. */
  predicate LanesApart(a: Intent, b: Intent) {
    a.Entry? && b.Entry? ==> a.LaneSymbol() != b.LaneSymbol()
  }

  /** An entry goes to a free lane not attempted today, with its latest bar's stamp; others go to own positions. */
  predicate Targets(cal: Calendar, strategy: Strategy, cycle: CycleInput, intent: Intent) {
    if intent.Entry? then
      var lane := intent.LaneSymbol();
      var bars := cycle.BarsOf(lane);
      && lane in cycle.symbols && !cycle.Holds(lane) && lane !in cycle.working
      && bars != []
      && (lane, cal.day(bars[|bars| - 1].timestamp)) !in cycle.traded
      && intent.timestamp == bars[|bars| - 1].timestamp
      && intent.quantity > 0.0
      && intent.strategy == strategy
    else cycle.Holds(intent.symbol)
  }

  ghost predicate Obeys(cal: Calendar, maxOpen: nat, strategy: Strategy, cycle: CycleInput, intents: seq<Intent>) {
    && EntryCount(intents) <= (if maxOpen > cycle.openCount then maxOpen - cycle.openCount else 0)
    && (forall i :: 0 <= i < |intents| ==> Targets(cal, strategy, cycle, intents[i]))
    && Pairwise(intents, LanesApart)
  }

  /** The signal's bar is the bar the evaluator was asked about. */
  ghost predicate AnswersAsked(evaluator: Evaluator) {
    forall symbol: Symbol, bars: seq<Bar>, daily: seq<Bar>, chains: Option<Snapshot> ::
      bars != [] && evaluator(symbol, bars, daily, chains).Some?
      ==> evaluator(symbol, bars, daily, chains).value.bar == bars[|bars| - 1]
  }

  ghost predicate SymbolsUsable(cycle: CycleInput) {
    "" !in cycle.symbols && Distinct(cycle.symbols)
  }

  // ---------------------------------------------------------------- counting entries

  lemma {:induction false} EntryCountJoin(a: seq<Intent>, b: seq<Intent>)
    ensures EntryCount(a + b) == EntryCount(a) + EntryCount(b)
    decreases |b|
  {
    if b == [] {
      assert a + b == a;
    } else {
      assert (a + b)[..|a + b| - 1] == a + b[..|b| - 1];
      EntryCountJoin(a, b[..|b| - 1]);
    }
  }

  lemma {:induction false} EntryCountInsert(sorted: seq<Intent>, x: Intent)
    ensures EntryCount(InsertBy(sorted, x, IntentBefore)) == EntryCount(sorted) + if x.Entry? then 1 else 0
  {
    hide IntentBefore;
    if sorted == [] || !IntentBefore(x, sorted[|sorted| - 1]) {
      assert (sorted + [x])[..|sorted|] == sorted;
    } else {
      var n := |sorted| - 1;
      var rest := InsertBy(sorted[..n], x, IntentBefore);
      assert (rest + [sorted[n]])[..|rest|] == rest;
      EntryCountInsert(sorted[..n], x);
    }
  }

  lemma {:induction false} EntryCountSort(intents: seq<Intent>)
    ensures EntryCount(SortBy(intents, IntentBefore)) == EntryCount(intents)
  {
    if intents != [] {
      var n := |intents| - 1;
      EntryCountSort(intents[..n]);
      EntryCountInsert(SortBy(intents[..n], IntentBefore), intents[n]);
    }
  }

  lemma {:induction false} EntryCountBound(intents: seq<Intent>)
    ensures EntryCount(intents) <= |intents|
    ensures (forall i :: 0 <= i < |intents| ==> !intents[i].Entry?) ==> EntryCount(intents) == 0
  {
    if intents != [] {
      EntryCountBound(intents[..|intents| - 1]);
    }
  }

  // ---------------------------------------------------------------- position intents

  /** Not an entry, and about one of the strategy's own positions. */
  predicate OwnPosition(cycle: CycleInput, intent: Intent) {
    !intent.Entry? && cycle.Holds(intent.symbol)
  }

  lemma {:induction false} FirstPassOwn(s: Settings, cal: Calendar, ind: Indicators, cycle: CycleInput, n: nat)
    requires s.Valid() && n <= |cycle.positions|
    ensures forall i :: i in FirstPass(s, cal, ind, cycle, n) ==> OwnPosition(cycle, i)
  {
    hide FirstDecision, LaterDecision;
    if n > 0 {
      FirstPassOwn(s, cal, ind, cycle, n - 1);
      DecisionSymbols(s, cal, ind, cycle, Trailing, [], cycle.positions[n - 1]);
    }
  }

  lemma {:induction false} LaterPassOwn(
    s: Settings, cal: Calendar, ind: Indicators, cycle: CycleInput, pass: Pass, before: seq<Intent>, n: nat)
    requires s.Valid() && n <= |cycle.positions|
    ensures forall i :: i in LaterPass(s, cal, cycle, pass, before, n) ==> OwnPosition(cycle, i)
  {
    hide FirstDecision, LaterDecision;
    if n > 0 {
      LaterPassOwn(s, cal, ind, cycle, pass, before, n - 1);
      DecisionSymbols(s, cal, ind, cycle, pass, before, cycle.positions[n - 1]);
    }
  }

  lemma {:induction false} PositionIntentsOwn(s: Settings, cal: Calendar, ind: Indicators, cycle: CycleInput)
    requires s.Valid()
    ensures forall i :: i in PositionIntents(s, cal, ind, cycle) ==> OwnPosition(cycle, i)
  {
    hide OwnPosition, FirstPass, LaterPass;
    var n := |cycle.positions|;
    FirstPassOwn(s, cal, ind, cycle, n);
    LaterPassOwn(s, cal, ind, cycle, ProfitTrail, EmittedBy(s, cal, ind, cycle, Trailing), n);
    LaterPassOwn(s, cal, ind, cycle, Breakeven, EmittedBy(s, cal, ind, cycle, ProfitTrail), n);
    LaterPassOwn(s, cal, ind, cycle, CapUp, EmittedBy(s, cal, ind, cycle, Breakeven), n);
  }

  // ---------------------------------------------------------------- entries

  lemma {:induction false} ScreenTargets(
    s: Settings, cal: Calendar, ind: Indicators, evaluator: Evaluator, strategy: Strategy, cycle: CycleInput,
    symbol: Symbol)
    requires AnswersAsked(evaluator) && symbol in cycle.symbols && symbol != ""
    ensures var r := Screen(s, cal, ind, evaluator, strategy, cycle, symbol);
            r.Offer? ==>
              var intent := r.candidate.intent;
              intent.Entry? && intent.LaneSymbol() == symbol && Targets(cal, strategy, cycle, intent)
  {
    hide SignalAcceptable, OptionContracts, CloseRatio, Sizing.PositionSize, ExecutesAfterFlatten;
  }

  predicate CandidatesApart(a: Candidate, b: Candidate) {
    LanesApart(a.intent, b.intent)
  }

  lemma {:induction false} CandidatesTarget(
    s: Settings, cal: Calendar, ind: Indicators, evaluator: Evaluator, strategy: Strategy, cycle: CycleInput, n: nat)
    requires AnswersAsked(evaluator) && SymbolsUsable(cycle) && n <= |cycle.symbols|
    ensures var r := Candidates(s, cal, ind, evaluator, strategy, cycle, n);
            r.Success? ==>
              && (forall c :: c in r.value ==>
                    c.intent.Entry? && c.intent.LaneSymbol() in cycle.symbols[..n] &&
                    Targets(cal, strategy, cycle, c.intent))
              && Pairwise(r.value, CandidatesApart)
  {
    hide Screen, Targets, Intent.LaneSymbol;
    if n > 0 {
      CandidatesTarget(s, cal, ind, evaluator, strategy, cycle, n - 1);
      var symbol := cycle.symbols[n - 1];
      ScreenTargets(s, cal, ind, evaluator, strategy, cycle, symbol);
      var before := Candidates(s, cal, ind, evaluator, strategy, cycle, n - 1);
      if before.Success? {
        assert forall x :: x in cycle.symbols[..n - 1] ==> x in cycle.symbols[..n] && x != symbol;
        assert symbol in cycle.symbols[..n];
        forall i | 0 <= i < |before.value| ensures before.value[i].intent.LaneSymbol() != symbol {
          assert before.value[i] in before.value;
        }
      }
    }
  }

  lemma {:induction false} RankKeepsApart(candidates: seq<Candidate>, mode: RankMode)
    requires Pairwise(candidates, CandidatesApart)
    ensures Pairwise(Rank(candidates, mode), CandidatesApart)
  {
    hide KeyBefore, KeyOf, CloseBefore, VolumeBefore;
    match mode
    case CloseToEntry => SortKeepsPairwise(candidates, CloseBefore, CandidatesApart);
    case RelativeVolume => SortKeepsPairwise(candidates, VolumeBefore, CandidatesApart);
    case Balanced =>
      var byClose, byVolume := SortBy(candidates, CloseBefore), SortBy(candidates, VolumeBefore);
      SortKeepsPairwise(
        candidates, (a, b) => KeyBefore(KeyOf(byClose, byVolume, a), KeyOf(byClose, byVolume, b)), CandidatesApart);
  }

  lemma {:induction false} SelectKeepsApart(
    ranked: seq<Candidate>, slots: nat, cap: real, equity: real, start: real, n: nat)
    requires n <= |ranked| && Pairwise(ranked, CandidatesApart)
    ensures Pairwise(Select(ranked, slots, cap, equity, start, n).chosen, LanesApart)
  {
    hide Exposure, TotalExposure, LanesApart;
    if n > 0 {
      SelectKeepsApart(ranked, slots, cap, equity, start, n - 1);
      var before := Select(ranked, slots, cap, equity, start, n - 1).chosen;
      forall i | 0 <= i < |before| ensures LanesApart(before[i], ranked[n - 1].intent) {
        ChosenFrom(ranked, slots, cap, equity, start, n - 1, before[i]);
        var j :| 0 <= j < n - 1 && ranked[j].intent == before[i];
        assert CandidatesApart(ranked[j], ranked[n - 1]);
      }
    }
  }

  lemma {:induction false} OnlyEntries(
    s: Settings, cal: Calendar, ind: Indicators, evaluator: Evaluator, strategy: Strategy, cycle: CycleInput)
    requires s.Valid()
    ensures var r := EntryIntents(s, cal, ind, evaluator, strategy, cycle);
            r.Success? ==> forall i :: i in r.value ==> i.Entry?
  {
    hide RegimeBlocked, ContextBlocked, Rank, Select, OpenExposure;
    var slots, r := AvailableSlots(s, cycle.openCount),
      Candidates(s, cal, ind, evaluator, strategy, cycle, |cycle.symbols|);
    OnlyEntryCandidates(s, cal, ind, evaluator, strategy, cycle, |cycle.symbols|);
    if r.Success? {
      var ranked, start := Rank(r.value, s.rankMode), OpenExposure(cycle.equity, cycle.positions);
      forall i | i in Select(ranked, slots, s.maxExposurePct, cycle.equity, start, |ranked|).chosen ensures i.Entry? {
        ChosenFrom(ranked, slots, s.maxExposurePct, cycle.equity, start, |ranked|, i);
        var j :| 0 <= j < |ranked| && ranked[j].intent == i;
        assert ranked[j] in ranked;
      }
    }
  }

  lemma {:induction false} OnlyEntryCandidates(
    s: Settings, cal: Calendar, ind: Indicators, evaluator: Evaluator, strategy: Strategy, cycle: CycleInput, n: nat)
    requires n <= |cycle.symbols|
    ensures var r := Candidates(s, cal, ind, evaluator, strategy, cycle, n);
            r.Success? ==> forall c :: c in r.value ==> c.intent.Entry?
  {
    hide Eligible, SignalAcceptable, OptionContracts, CloseRatio, Sizing.PositionSize;
    if n > 0 {
      OnlyEntryCandidates(s, cal, ind, evaluator, strategy, cycle, n - 1);
    }
  }

  /** The entries fit the free slots, go to distinct free lanes, and keep the exposure within its cap. */
  lemma {:induction false} EntryIntentsObey(
    s: Settings, cal: Calendar, ind: Indicators, evaluator: Evaluator, strategy: Strategy, cycle: CycleInput)
    requires s.Valid() && AnswersAsked(evaluator) && SymbolsUsable(cycle)
    ensures var r := EntryIntents(s, cal, ind, evaluator, strategy, cycle);
            r.Success? ==>
              && |r.value| <= AvailableSlots(s, cycle.openCount)
              && (forall i :: i in r.value ==> i.Entry? && Targets(cal, strategy, cycle, i))
              && Pairwise(r.value, LanesApart)
              && (r.value != [] ==>
                    OpenExposure(cycle.equity, cycle.positions) + TotalExposure(cycle.equity, r.value)
                    <= s.maxExposurePct)
  {
    hide RegimeBlocked, ContextBlocked, AvailableSlots, Targets, LanesApart, Rank, Select, OpenExposure, TotalExposure;
    var slots := AvailableSlots(s, cycle.openCount);
    var r := Candidates(s, cal, ind, evaluator, strategy, cycle, |cycle.symbols|);
    CandidatesTarget(s, cal, ind, evaluator, strategy, cycle, |cycle.symbols|);
    if r.Success? {
      var ranked := Rank(r.value, s.rankMode);
      RankKeepsApart(r.value, s.rankMode);
      var start := OpenExposure(cycle.equity, cycle.positions);
      SelectKeepsApart(ranked, slots, s.maxExposurePct, cycle.equity, start, |ranked|);
      forall i | i in Select(ranked, slots, s.maxExposurePct, cycle.equity, start, |ranked|).chosen
        ensures i.Entry? && Targets(cal, strategy, cycle, i)
      {
        ChosenFrom(ranked, slots, s.maxExposurePct, cycle.equity, start, |ranked|, i);
        var j :| 0 <= j < |ranked| && ranked[j].intent == i;
        assert ranked[j] in ranked;
      }
    }
  }

  /** Every cycle of the engine obeys the contract that the portfolio replay relies on. */
  lemma {:induction false} CycleObeys(
    s: Settings, cal: Calendar, ind: Indicators, evaluator: Evaluator, strategy: Strategy, cycle: CycleInput)
    requires s.Valid() && AnswersAsked(evaluator) && SymbolsUsable(cycle)
    ensures var r := EvaluateCycle(s, cal, ind, evaluator, strategy, cycle);
            r.Success? ==> Obeys(cal, s.maxOpenPositions, strategy, cycle, r.value)
  {
    hide EntryIntents, PositionIntents, LanesApart;
    var clean := Filtered(cycle);
    var entries := EntryIntents(s, cal, ind, evaluator, strategy, clean);
    EntryIntentsObey(s, cal, ind, evaluator, strategy, clean);
    if entries.Success? {
      var own := PositionIntents(s, cal, ind, clean);
      PositionIntentsOwn(s, cal, ind, clean);
      TogetherObey(s, cal, strategy, cycle, clean, own, entries.value);
    }
  }

  lemma {:induction false} TogetherApart(cycle: CycleInput, own: seq<Intent>, entries: seq<Intent>)
    requires forall i :: i in own ==> OwnPosition(cycle, i)
    requires Pairwise(entries, LanesApart)
    ensures Pairwise(SortBy(own + entries, IntentBefore), LanesApart)
  {
    hide IntentBefore;
    var all := own + entries;
    forall i, j | 0 <= i < j < |all| ensures LanesApart(all[i], all[j]) {
      if i >= |own| {
        assert all[i] == entries[i - |own|] && all[j] == entries[j - |own|];
      } else {
        assert all[i] in own;
      }
    }
    SortKeepsPairwise(all, IntentBefore, LanesApart);
  }

  lemma {:induction false} TogetherCount(cycle: CycleInput, own: seq<Intent>, entries: seq<Intent>)
    requires forall i :: i in own ==> OwnPosition(cycle, i)
    ensures EntryCount(SortBy(own + entries, IntentBefore)) <= |entries|
  {
    hide IntentBefore;
    forall i | 0 <= i < |own| ensures !own[i].Entry? {
      assert own[i] in own;
    }
    EntryCountBound(own);
    EntryCountBound(entries);
    EntryCountJoin(own, entries);
    EntryCountSort(own + entries);
  }

  lemma {:induction false} TogetherObey(
    s: Settings, cal: Calendar, strategy: Strategy, cycle: CycleInput, clean: CycleInput, own: seq<Intent>,
    entries: seq<Intent>)
    requires clean == Filtered(cycle)
    requires forall i :: i in own ==> OwnPosition(clean, i)
    requires |entries| <= AvailableSlots(s, clean.openCount)
    requires forall i :: i in entries ==> i.Entry? && Targets(cal, strategy, clean, i)
    requires Pairwise(entries, LanesApart)
    ensures Obeys(cal, s.maxOpenPositions, strategy, cycle, SortBy(own + entries, IntentBefore))
  {
    hide IntentBefore, Targets, OwnPosition, LanesApart, EntryCount;
    var all := own + entries;
    var sorted := SortBy(all, IntentBefore);
    TogetherCount(clean, own, entries);
    TogetherApart(clean, own, entries);
    forall i | 0 <= i < |sorted| ensures Targets(cal, strategy, cycle, sorted[i]) {
      assert sorted[i] in sorted && sorted[i] in all;
      SameTargets(cal, strategy, cycle, sorted[i]);
    }
  }

  lemma {:induction false} SameTargets(cal: Calendar, strategy: Strategy, cycle: CycleInput, intent: Intent)
    ensures Targets(cal, strategy, Filtered(cycle), intent) == Targets(cal, strategy, cycle, intent)
    ensures OwnPosition(Filtered(cycle), intent) ==> Targets(cal, strategy, cycle, intent)
  {
    assert forall x :: Filtered(cycle).Holds(x) == cycle.Holds(x);
    assert forall x :: Filtered(cycle).BarsOf(x) == cycle.BarsOf(x);
  }

  /** A cycle does not look behind the filter: which series were already known to be clean changes nothing. */
  lemma {:induction false} CleanMarksDoNotMatter(
    s: Settings, cal: Calendar, ind: Indicators, evaluator: Evaluator, strategy: Strategy, a: CycleInput, b: CycleInput)
    requires s.Valid() && Filtered(a) == Filtered(b)
    ensures EvaluateCycle(s, cal, ind, evaluator, strategy, a) == EvaluateCycle(s, cal, ind, evaluator, strategy, b)
  {
  }

  // ---------------------------------------------------------------- stops survive the sort

  lemma {:induction false} StopsForMembers(intents: seq<Intent>, symbol: Symbol, stop: real)
    ensures stop in StopsFor(intents, symbol)
       <==> exists i :: i in intents && i.UpdateStop? && i.symbol == symbol && i.stopPrice == stop
  {
    if intents != [] {
      var n := |intents| - 1;
      StopsForMembers(intents[..n], symbol, stop);
      assert intents == intents[..n] + [intents[n]];
    }
  }

  lemma {:induction false} HasExitMembers(intents: seq<Intent>, symbol: Symbol)
    ensures HasExit(intents, symbol) <==> exists i :: i in intents && i.Exit? && i.symbol == symbol
  {
    if HasExit(intents, symbol) {
      var k :| 0 <= k < |intents| && intents[k].Exit? && intents[k].symbol == symbol;
      assert intents[k] in intents;
    }
  }

  /** In whatever order the sort leaves them, the emitted stops offered to a position end at the top of its ladder. */
  lemma {:induction false} SortedStopsSettle(
    s: Settings, cal: Calendar, ind: Indicators, evaluator: Evaluator, strategy: Strategy, cycle: CycleInput, k: nat)
    requires s.Valid() && DistinctSymbols(cycle.positions) && k < |cycle.positions|
    requires EvaluateCycle(s, cal, ind, evaluator, strategy, cycle).Success?
    ensures var p := cycle.positions[k];
            var intents := EvaluateCycle(s, cal, ind, evaluator, strategy, cycle).value;
            && Offered(p.quantity, p.stopPrice, StopsFor(intents, p.symbol))
               == StopInForce(PositionIntents(s, cal, ind, Filtered(cycle)), p)
            && (HasExit(intents, p.symbol) ==> StopsFor(intents, p.symbol) == [])
  {
    hide EntryIntents, PositionIntents;
    var clean, p := Filtered(cycle), cycle.positions[k];
    var own, entries := PositionIntents(s, cal, ind, clean),
      EntryIntents(s, cal, ind, evaluator, strategy, clean).value;
    StopsRatchet(s, cal, ind, clean, k);
    OnlyEntries(s, cal, ind, evaluator, strategy, clean);
    SettleOne(p, clean.BarsOf(p.symbol), own, entries);
  }

  lemma {:induction false} SettleOne(p: Position, bars: seq<Bar>, own: seq<Intent>, entries: seq<Intent>)
    requires Ratchets(p, bars, own) && forall i :: i in entries ==> i.Entry?
    ensures var intents := SortBy(own + entries, IntentBefore);
            && Offered(p.quantity, p.stopPrice, StopsFor(intents, p.symbol)) == StopInForce(own, p)
            && (HasExit(intents, p.symbol) ==> StopsFor(intents, p.symbol) == [])
  {
    hide IntentBefore, Accepts;
    var intents := SortBy(own + entries, IntentBefore);
    var before, after := StopsFor(own, p.symbol), StopsFor(intents, p.symbol);
    forall c ensures c in after <==> c in before {
      StopsForMembers(own, p.symbol, c);
      StopsForMembers(intents, p.symbol, c);
    }
    var close := if bars == [] then 0.0 else bars[|bars| - 1].close;
    assert Ladder(p, before, close);
    LadderTop(p, before, close, after);
    HasExitMembers(own, p.symbol);
    HasExitMembers(intents, p.symbol);
    assert after == [] || after[0] in before;
  }
}
