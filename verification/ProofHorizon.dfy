/** The proof-horizon audit (replay/cli.py): from every session on, how long until a strategy is proven. */
module ProofHorizon {
  import opened Numbers
  import opened Domain
  import opened ProofScan

  datatype Thresholds = Thresholds(
    minTrades: int,
    minPnl: real,
    minActiveDays: int,
    minProfitFactor: Option<real>,
    maxWinShare: Option<real>,
    maxEodLossShare: Option<real>)

  function ProfitFactor(s: Stats): Option<real> {
    if s.grossLoss > 0.0 then Some(s.grossProfit / s.grossLoss) else None
  }

  function WinShare(s: Stats): Option<real> {
    if s.pnl > 0.0 && s.bestWin > 0.0 then Some(s.bestWin / s.pnl) else None
  }

  function EodLossShare(s: Stats): Option<real> {
    if s.losses > 0 then Some(s.eodLosses as real / s.losses as real) else None
  }

  predicate Below(x: Option<real>, limit: Option<real>) {
    x.Some? && limit.Some? && x.value < limit.value
  }

  predicate Exceeds(x: Option<real>, limit: Option<real>) {
    x.Some? && limit.Some? && x.value > limit.value
  }

  /** _proof_horizon_blockers. */
  function Blockers(s: Stats, th: Thresholds): (blockers: seq<string>)
    ensures "none" !in blockers
    ensures blockers == [] ==> s.count >= th.minTrades && s.activeDays >= th.minActiveDays
  {
    (if s.count < th.minTrades then ["sample_trades"] else [])
    + (if s.activeDays < th.minActiveDays then ["active_days"] else [])
    + (if s.pnl < th.minPnl then ["positive_pnl"] else [])
    + (if Below(ProfitFactor(s), th.minProfitFactor) then ["profit_factor"] else [])
    + (if Exceeds(WinShare(s), th.maxWinShare) then ["profit_concentration"] else [])
    + (if Exceeds(EodLossShare(s), th.maxEodLossShare) then ["eod_loss_share"] else [])
  }

  lemma {:induction false} QuotientTest(x: real, y: real, limit: real)
    requires y > 0.0
    ensures x / y < limit <==> x < limit * y
    ensures x / y > limit <==> x > limit * y
  {
    var q := x / y;
    assert q * y == x;
    if q < limit { ProductSign(limit - q, y); } else { ProductSign(q - limit, y); }
    if q > limit { ProductSign(q - limit, y); }
  }

  lemma {:induction false} ProfitFactorTest(s: Stats, limit: Option<real>)
    ensures !Below(ProfitFactor(s), limit) <==>
      (limit.Some? && s.grossLoss > 0.0 ==> s.grossProfit >= limit.value * s.grossLoss)
  {
    if limit.Some? && s.grossLoss > 0.0 {
      QuotientTest(s.grossProfit, s.grossLoss, limit.value);
    }
  }

  lemma {:induction false} WinShareTest(s: Stats, limit: Option<real>)
    ensures !Exceeds(WinShare(s), limit) <==>
      (limit.Some? && s.pnl > 0.0 && s.bestWin > 0.0 ==> s.bestWin <= limit.value * s.pnl)
  {
    if limit.Some? && s.pnl > 0.0 && s.bestWin > 0.0 {
      QuotientTest(s.bestWin, s.pnl, limit.value);
    }
  }

  lemma {:induction false} EodLossTest(s: Stats, limit: Option<real>)
    ensures !Exceeds(EodLossShare(s), limit)
       <==> (limit.Some? && s.losses > 0 ==> s.eodLosses as real <= limit.value * s.losses as real)
  {
    if limit.Some? && s.losses > 0 {
      QuotientTest(s.eodLosses as real, s.losses as real, limit.value);
    }
  }

  /** A window is clear exactly when every threshold is met, with ratios read as products. */
  lemma {:induction false} ClearMeans(s: Stats, th: Thresholds)
    ensures Blockers(s, th) == [] <==>
      && s.count >= th.minTrades
      && s.activeDays >= th.minActiveDays
      && s.pnl >= th.minPnl
      && (th.minProfitFactor.Some? && s.grossLoss > 0.0 ==> s.grossProfit >= th.minProfitFactor.value * s.grossLoss)
      && (th.maxWinShare.Some? && s.pnl > 0.0 && s.bestWin > 0.0 ==> s.bestWin <= th.maxWinShare.value * s.pnl)
      && (th.maxEodLossShare.Some? && s.losses > 0 ==>
         s.eodLosses as real <= th.maxEodLossShare.value * s.losses as real)
  {
    hide ProfitFactor, WinShare, EodLossShare, Below, Exceeds;
    ProfitFactorTest(s, th.minProfitFactor);
    WinShareTest(s, th.maxWinShare);
    EodLossTest(s, th.maxEodLossShare);
  }

  predicate IsEod(reason: string) {
    reason == "eod"
  }

  // ---------------------------------------------------------------- one start, from scratch

  /** Sessions i to j, aggregated from scratch, have no blockers. */
  predicate Clear(groups: seq<seq<Trade>>, i: nat, j: nat, th: Thresholds, eod: string -> bool)
    requires i <= j < |groups|
  {
    Blockers(StatsOf(groups, i, j + 1, eod), th) == []
  }

  datatype Outcome = Outcome(
    passAt: Option<nat>,
    reachedTrades: bool,
    reachedDays: bool,
    firstBlockers: seq<string>,
    terminal: seq<string>)

  /** By the end of session k, start i has seen enough trades. */
  predicate Reached(groups: seq<seq<Trade>>, i: nat, k: nat, minTrades: int)
    requires i <= k < |groups|
  {
    |Window(groups, i, k + 1)| >= minTrades
  }

  /** f is the first session at which a start's trades reach the minimum. */
  ghost predicate FirstReach(groups: seq<seq<Trade>>, i: nat, f: nat, minTrades: int) {
    && i <= f < |groups|
    && Reached(groups, i, f, minTrades)
    && forall k :: i <= k < f ==> !Reached(groups, i, k, minTrades)
  }

  /** What the audit must report about start i, in terms of whole windows only. */
  ghost predicate IsOutcome(groups: seq<seq<Trade>>, i: nat, th: Thresholds, eod: string -> bool, o: Outcome)
    requires i < |groups|
  {
    var n := |groups|;
    && (o.passAt.Some? ==> i <= o.passAt.value < n && Clear(groups, i, o.passAt.value, th, eod)
                           && forall k :: i <= k < o.passAt.value ==> !Clear(groups, i, k, th, eod))
    && (o.passAt.None? ==> forall k :: i <= k < n ==> !Clear(groups, i, k, th, eod))
    && (o.reachedTrades <==> |Window(groups, i, n)| >= th.minTrades)
    && (o.reachedDays <==> ActiveDays(groups, i, n) >= th.minActiveDays)
    && (o.reachedTrades ==> exists f: nat ::
          FirstReach(groups, i, f, th.minTrades) && o.firstBlockers == Blockers(StatsOf(groups, i, f + 1, eod), th))
    && (!o.reachedTrades ==> o.firstBlockers == [])
    && o.terminal == if o.passAt.None? then Blockers(StatsOf(groups, i, n, eod), th) else []
  }

  /** The from-scratch description determines the outcome. */
  lemma {:induction false} OutcomeIsUnique(
    groups: seq<seq<Trade>>, i: nat, th: Thresholds, eod: string -> bool, a: Outcome, b: Outcome)
    requires i < |groups| && IsOutcome(groups, i, th, eod, a) && IsOutcome(groups, i, th, eod, b)
    ensures a == b
  {
    hide Clear, Blockers, StatsOf;
    if a.reachedTrades {
      var f: nat :| FirstReach(groups, i, f, th.minTrades) &&
        a.firstBlockers == Blockers(StatsOf(groups, i, f + 1, eod), th);
      var g: nat :| FirstReach(groups, i, g, th.minTrades) &&
        b.firstBlockers == Blockers(StatsOf(groups, i, g + 1, eod), th);
      assert f == g;
    }
    if a.passAt.Some? && b.passAt.Some? {
      assert a.passAt.value == b.passAt.value;
    }
  }

  /** A start that is clear when it first has enough trades passes, and a start that passes had enough trades. */
  lemma {:induction false} OutcomeLogic(
    groups: seq<seq<Trade>>, i: nat, th: Thresholds, eod: string -> bool, o: Outcome)
    requires i < |groups| && IsOutcome(groups, i, th, eod, o)
    ensures FirstPassed(o) ==> o.passAt.Some?
    ensures o.passAt.Some? ==> FirstPassed(o) != Recovered(o)
    ensures o.passAt.None? ==> o.terminal != []
    ensures "none" !in o.firstBlockers && "none" !in o.terminal
  {
    hide Blockers, StatsOf, IsOutcome;
    PassImpliesReach(groups, i, th, eod, o);
    FirstPassImpliesPass(groups, i, th, eod, o);
    TerminalBlocked(groups, i, th, eod, o);
  }

  lemma {:induction false} FirstPassImpliesPass(
    groups: seq<seq<Trade>>, i: nat, th: Thresholds, eod: string -> bool, o: Outcome)
    requires i < |groups| && IsOutcome(groups, i, th, eod, o)
    ensures FirstPassed(o) ==> o.passAt.Some?
    ensures "none" !in o.firstBlockers
    ensures !o.reachedTrades ==> o.firstBlockers == []
  {
    hide Blockers, StatsOf;
    if o.reachedTrades {
      var f: nat :| FirstReach(groups, i, f, th.minTrades) &&
        o.firstBlockers == Blockers(StatsOf(groups, i, f + 1, eod), th);
      assert Clear(groups, i, f, th, eod) <==> o.firstBlockers == [];
    }
  }

  lemma {:induction false} PassImpliesReach(
    groups: seq<seq<Trade>>, i: nat, th: Thresholds, eod: string -> bool, o: Outcome)
    requires i < |groups| && IsOutcome(groups, i, th, eod, o)
    ensures o.passAt.Some? ==> o.reachedTrades && o.reachedDays
  {
    hide Blockers;
    if o.passAt.Some? {
      assert Clear(groups, i, o.passAt.value, th, eod);
      WindowGrows(groups, i, o.passAt.value + 1, |groups|);
    }
  }

  lemma {:induction false} TerminalBlocked(
    groups: seq<seq<Trade>>, i: nat, th: Thresholds, eod: string -> bool, o: Outcome)
    requires i < |groups| && IsOutcome(groups, i, th, eod, o)
    ensures o.passAt.None? ==> o.terminal != []
    ensures "none" !in o.terminal
  {
    hide Blockers, StatsOf;
    if o.passAt.None? {
      assert !Clear(groups, i, |groups| - 1, th, eod);
    }
  }

  /** The inner loop: extend the window session by session until it is clear. */
  method ScanStart(groups: seq<seq<Trade>>, i: nat, th: Thresholds, eod: string -> bool) returns (o: Outcome)
    requires i < |groups|
    ensures IsOutcome(groups, i, th, eod, o)
  {
    hide Clear, Blockers, StatsOf, Window, ActiveDays;
    var n := |groups|;
    NothingYet(groups, i, eod);
    var acc := Stats(0, 0.0, 0, 0.0, 0.0, 0.0, 0, 0);
    var firstSeen, daysSeen := false, false;
    var firstBlockers: seq<string> := [];
    var latest: seq<string> := [];
    ghost var first: nat := i;
    var j := i;
    while j < n
      invariant i <= j <= n
      invariant acc == StatsOf(groups, i, j, eod)
      invariant forall k :: i <= k < j ==> !Clear(groups, i, k, th, eod)
      invariant firstSeen ==> first < j && FirstReach(groups, i, first, th.minTrades)
                              && firstBlockers == Blockers(StatsOf(groups, i, first + 1, eod), th)
      invariant !firstSeen ==> firstBlockers == [] && forall k :: i <= k < j ==> !Reached(groups, i, k, th.minTrades)
      invariant i < j ==> (daysSeen <==> acc.activeDays >= th.minActiveDays)
      invariant i == j ==> !daysSeen
      invariant i < j ==> latest == Blockers(acc, th)
    {
      StatsShape(groups, i, j, eod);
      acc := AddSession(groups, i, j, acc, eod);
      StatsShape(groups, i, j + 1, eod);
      WindowGrows(groups, i, j, j + 1);
      if !daysSeen && acc.activeDays >= th.minActiveDays {
        daysSeen := true;
      }
      if !firstSeen && acc.count >= th.minTrades {
        firstSeen := true;
        first := j;
        firstBlockers := Blockers(acc, th);
      }
      latest := Blockers(acc, th);
      ClearAt(groups, i, j, th, eod);
      if latest == [] {
        WindowGrows(groups, i, j + 1, n);
        assert firstSeen && daysSeen;
        assert FirstReach(groups, i, first, th.minTrades);
        assert firstBlockers == Blockers(StatsOf(groups, i, first + 1, eod), th);
        assert Clear(groups, i, j, th, eod);
        return Outcome(Some(j), firstSeen, daysSeen, firstBlockers, []);
      }
      j := j + 1;
    }
    StatsShape(groups, i, n, eod);
    assert !firstSeen ==> !Reached(groups, i, n - 1, th.minTrades);
    assert firstSeen ==> Reached(groups, i, first, th.minTrades);
    if firstSeen {
      WindowGrows(groups, i, first + 1, n);
    }
    return Outcome(None, firstSeen, daysSeen, firstBlockers, latest);
  }

  lemma {:induction false} NothingYet(groups: seq<seq<Trade>>, i: nat, eod: string -> bool)
    requires i < |groups|
    ensures StatsOf(groups, i, i, eod) == Stats(0, 0.0, 0, 0.0, 0.0, 0.0, 0, 0)
  {
  }

  lemma {:induction false} StatsShape(groups: seq<seq<Trade>>, i: nat, j: nat, eod: string -> bool)
    requires i <= j <= |groups|
    ensures StatsOf(groups, i, j, eod).count == |Window(groups, i, j)|
    ensures StatsOf(groups, i, j, eod).activeDays == ActiveDays(groups, i, j)
  {
  }

  lemma {:induction false} ClearAt(groups: seq<seq<Trade>>, i: nat, j: nat, th: Thresholds, eod: string -> bool)
    requires i <= j < |groups|
    ensures Clear(groups, i, j, th, eod) <==> Blockers(StatsOf(groups, i, j + 1, eod), th) == []
  {
  }

  /** Fold one session's trades into the running figures. */
  method AddSession(groups: seq<seq<Trade>>, ghost i: nat, j: nat, start: Stats, eod: string -> bool)
    returns (acc: Stats)
    requires i <= j < |groups| && start == StatsOf(groups, i, j, eod)
    ensures acc == StatsOf(groups, i, j + 1, eod)
  {
    hide TradeStats;
    acc := start;
    ghost var window := Window(groups, i, j);
    assert window + groups[j][..0] == window;
    ghost var days := ActiveDays(groups, i, j);
    for k := 0 to |groups[j]|
      invariant acc == TradeStats(window + groups[j][..k], days, eod)
    {
      var t := groups[j][k];
      OneMoreTrade(window + groups[j][..k], t, days, eod);
      DaysOnly(window + groups[j][..k], days, eod);
      assert window + groups[j][..k] + [t] == window + groups[j][..k + 1];
      acc := acc.(count := acc.count + 1, pnl := acc.pnl + t.pnl);
      if t.pnl > 0.0 {
        acc := acc.(grossProfit := acc.grossProfit + t.pnl, bestWin := Max(acc.bestWin, t.pnl));
      } else if t.pnl < 0.0 {
        acc := acc.(grossLoss := acc.grossLoss + -t.pnl, losses := acc.losses + 1);
        if eod(t.exitReason) {
          acc := acc.(eodLosses := acc.eodLosses + 1);
        }
      }
    }
    assert groups[j][..|groups[j]|] == groups[j];
    if groups[j] != [] {
      acc := acc.(activeDays := acc.activeDays + 1);
    }
    DaysOnly(window + groups[j], days, eod);
  }

  lemma {:induction false} DaysOnly(ts: seq<Trade>, days: nat, eod: string -> bool)
    ensures TradeStats(ts, days + 1, eod) == TradeStats(ts, days, eod).(activeDays := days + 1)
    ensures TradeStats(ts, days, eod).activeDays == days
  {
  }

  // ---------------------------------------------------------------- the summary over all starts

  function CountOf(outcomes: seq<Outcome>, p: Outcome -> bool): (n: nat)
    ensures n <= |outcomes|
  {
    if outcomes == [] then 0
    else CountOf(outcomes[..|outcomes| - 1], p) + if p(outcomes[|outcomes| - 1]) then 1 else 0
  }

  /** How often a blocker occurs in the lists picked from the outcomes. */
  function Tally(outcomes: seq<Outcome>, pick: Outcome -> seq<string>, blocker: string): nat {
    if outcomes == [] then 0
    else Tally(outcomes[..|outcomes| - 1], pick, blocker) + multiset(pick(outcomes[|outcomes| - 1]))[blocker]
  }

  /** The window lengths of the starts that pass, in start order. */
  function PassLengths(outcomes: seq<Outcome>): seq<int> {
    if outcomes == [] then []
    else
      var n := |outcomes| - 1;
      var rest := PassLengths(outcomes[..n]);
      if outcomes[n].passAt.Some? then rest + [outcomes[n].passAt.value - n + 1] else rest
  }

  predicate Passed(o: Outcome) { o.passAt.Some? }

  predicate NotProven(o: Outcome) { o.passAt.None? }

  predicate ReachedTrades(o: Outcome) { o.reachedTrades }

  predicate ReachedDays(o: Outcome) { o.reachedDays }

  predicate FirstPassed(o: Outcome) { o.reachedTrades && o.firstBlockers == [] }

  predicate Recovered(o: Outcome) { o.passAt.Some? && o.reachedTrades && o.firstBlockers != [] }

  function AtFirst(o: Outcome): seq<string> { o.firstBlockers }

  function AtEnd(o: Outcome): seq<string> { o.terminal }

  datatype Summary = Summary(
    sessions: nat,
    passed: nat,
    notProven: nat,
    reachingTrades: nat,
    reachingDays: nat,
    firstPasses: nat,
    recovered: nat,
    firstBlockers: map<string, nat>,
    terminalBlockers: map<string, nat>,
    eventualPassRate: Option<real>,
    firstPassRate: Option<real>,
    median: Option<int>,
    p90: Option<int>,
    p95: Option<int>,
    slowest: Option<int>,
    activeTradeDays: nat)

  function Rate(part: nat, whole: nat): Option<real> {
    if whole > 0 then Some(part as real / whole as real) else None
  }

  function Last(values: seq<int>): Option<int> {
    if values == [] then None else Some(values[|values| - 1])
  }

  /** A counter dictionary holds exactly the positive tallies. */
  ghost predicate Counts(counts: map<string, nat>, outcomes: seq<Outcome>, pick: Outcome -> seq<string>) {
    forall b :: (b in counts <==> Tally(outcomes, pick, b) > 0) &&
      (b in counts ==> counts[b] == Tally(outcomes, pick, b))
  }

  /** What the summary says, in terms of the outcomes of all starts. */
  ghost predicate Summarises(s: Summary, outcomes: seq<Outcome>, days: nat) {
    var lengths := SortInts(PassLengths(outcomes));
    && s.sessions == |outcomes|
    && s.passed == CountOf(outcomes, Passed)
    && s.notProven == CountOf(outcomes, NotProven)
    && s.reachingTrades == CountOf(outcomes, ReachedTrades)
    && s.reachingDays == CountOf(outcomes, ReachedDays)
    && s.firstPasses == CountOf(outcomes, FirstPassed)
    && s.recovered == CountOf(outcomes, Recovered)
    && Counts(s.firstBlockers, outcomes, AtFirst)
    && Counts(s.terminalBlockers, outcomes, AtEnd)
    && s.eventualPassRate == Rate(s.passed, s.sessions)
    && s.firstPassRate == Rate(s.firstPasses, s.reachingTrades)
    && s.median == CeilPercentile(lengths, 0.50)
    && s.p90 == CeilPercentile(lengths, 0.90)
    && s.p95 == CeilPercentile(lengths, 0.95)
    && s.slowest == Last(lengths)
    && s.activeTradeDays == days
  }

  ghost predicate AreOutcomes(groups: seq<seq<Trade>>, th: Thresholds, eod: string -> bool, outcomes: seq<Outcome>) {
    |outcomes| == |groups| && forall i :: 0 <= i < |groups| ==> IsOutcome(groups, i, th, eod, outcomes[i])
  }

  /** A summary of the outcomes of all starts; they are unique, so it says what the summary must be. */
  ghost predicate SummaryOf(s: Summary, groups: seq<seq<Trade>>, th: Thresholds, eod: string -> bool, days: nat) {
    exists outcomes :: AreOutcomes(groups, th, eod, outcomes) && Summarises(s, outcomes, days)
  }

  /** Starts are conserved: each passes or is not proven, and a pass is a first-threshold pass or a recovery. */
  lemma {:induction false} StartsAreConserved(
    groups: seq<seq<Trade>>, th: Thresholds, eod: string -> bool, outcomes: seq<Outcome>, k: nat)
    requires AreOutcomes(groups, th, eod, outcomes) && k <= |groups|
    ensures CountOf(outcomes[..k], Passed) + CountOf(outcomes[..k], NotProven) == k
    ensures CountOf(outcomes[..k], Passed)
         == CountOf(outcomes[..k], FirstPassed) + CountOf(outcomes[..k], Recovered)
  {
    hide IsOutcome;
    if k > 0 {
      StartsAreConserved(groups, th, eod, outcomes, k - 1);
      OutcomeLogic(groups, k - 1, th, eod, outcomes[k - 1]);
      assert outcomes[..k][..k - 1] == outcomes[..k - 1];
    }
  }

  /** The starts that reach the minimum number of trades are the first so many sessions. */
  lemma {:induction false} ReachingIsPrefix(
    groups: seq<seq<Trade>>, th: Thresholds, eod: string -> bool, outcomes: seq<Outcome>, i: nat)
    requires AreOutcomes(groups, th, eod, outcomes) && i < |groups|
    ensures outcomes[i].reachedTrades <==> i < CountOf(outcomes, ReachedTrades)
  {
    hide IsOutcome;
    forall a, b | 0 <= a < b < |groups| && outcomes[b].reachedTrades ensures outcomes[a].reachedTrades {
      EarlierReaches(groups, th, eod, outcomes, a, b);
    }
    CountPrefix(outcomes, |outcomes|, i);
    assert outcomes[..|outcomes|] == outcomes;
  }

  lemma {:induction false} EarlierReaches(
    groups: seq<seq<Trade>>, th: Thresholds, eod: string -> bool, outcomes: seq<Outcome>, a: nat, b: nat)
    requires AreOutcomes(groups, th, eod, outcomes) && a < b < |groups|
    ensures outcomes[b].reachedTrades ==> outcomes[a].reachedTrades
  {
    SuffixShrinks(groups, a, b, |groups|);
    assert IsOutcome(groups, a, th, eod, outcomes[a]) && IsOutcome(groups, b, th, eod, outcomes[b]);
  }

  lemma {:induction false} CountPrefix(outcomes: seq<Outcome>, n: nat, i: nat)
    requires n <= |outcomes|
    requires forall a, b :: 0 <= a < b < |outcomes| && outcomes[b].reachedTrades ==> outcomes[a].reachedTrades
    ensures i < n ==> (outcomes[i].reachedTrades <==> i < CountOf(outcomes[..n], ReachedTrades))
    ensures (forall a :: 0 <= a < n ==> outcomes[a].reachedTrades) ==> CountOf(outcomes[..n], ReachedTrades) == n
    decreases n
  {
    if n > 0 {
      assert outcomes[..n][..n - 1] == outcomes[..n - 1];
      CountPrefix(outcomes, n - 1, i);
    }
  }

  /** The placeholder key for an empty blocker list never shows up in either dictionary. */
  lemma {:induction false} NoneNeverCounted(
    groups: seq<seq<Trade>>, th: Thresholds, eod: string -> bool, outcomes: seq<Outcome>, k: nat)
    requires AreOutcomes(groups, th, eod, outcomes) && k <= |groups|
    ensures Tally(outcomes[..k], AtFirst, "none") == 0 && Tally(outcomes[..k], AtEnd, "none") == 0
  {
    hide IsOutcome;
    if k > 0 {
      NoneNeverCounted(groups, th, eod, outcomes, k - 1);
      OutcomeLogic(groups, k - 1, th, eod, outcomes[k - 1]);
      assert outcomes[..k][..k - 1] == outcomes[..k - 1];
    }
  }

  /** _increment_blocker_counts; an empty list counts as "none". */
  method IncrementBlockerCounts(counts: map<string, nat>, blockers: seq<string>) returns (r: map<string, nat>)
    ensures var listed := if blockers == [] then ["none"] else blockers;
      forall b :: ((b in r <==> b in counts || b in listed)
        && (b in r ==> r[b] == (if b in counts then counts[b] else 0) + multiset(listed)[b]))
  {
    if blockers == [] {
      return counts["none" := (if "none" in counts then counts["none"] else 0) + 1];
    }
    r := counts;
    for i := 0 to |blockers|
      invariant forall b :: ((b in r <==> b in counts || b in blockers[..i])
        && (b in r ==> r[b] == (if b in counts then counts[b] else 0) + multiset(blockers[..i])[b]))
    {
      assert blockers[..i + 1] == blockers[..i] + [blockers[i]];
      r := r[blockers[i] := (if blockers[i] in r then r[blockers[i]] else 0) + 1];
    }
    assert blockers[..|blockers|] == blockers;
  }

  lemma {:induction false} CountMore(outcomes: seq<Outcome>, o: Outcome, p: Outcome -> bool)
    ensures CountOf(outcomes + [o], p) == CountOf(outcomes, p) + if p(o) then 1 else 0
  {
    assert (outcomes + [o])[..|outcomes|] == outcomes;
  }

  lemma {:induction false} TallyMore(
    counts: map<string, nat>, more: map<string, nat>, outcomes: seq<Outcome>, o: Outcome, pick: Outcome -> seq<string>)
    requires Counts(counts, outcomes, pick)
    requires forall b :: ((b in more <==> b in counts || b in pick(o))
        && (b in more ==> more[b] == (if b in counts then counts[b] else 0) + multiset(pick(o))[b]))
    ensures Counts(more, outcomes + [o], pick)
  {
    assert (outcomes + [o])[..|outcomes|] == outcomes;
  }

  lemma {:induction false} PassLengthsMore(outcomes: seq<Outcome>, o: Outcome)
    ensures PassLengths(outcomes + [o])
         == if o.passAt.Some? then PassLengths(outcomes) + [o.passAt.value - |outcomes| + 1] else PassLengths(outcomes)
  {
    assert (outcomes + [o])[..|outcomes|] == outcomes;
  }

  /** The seven running counters after the outcomes so far. */
  ghost predicate Counters(
    outcomes: seq<Outcome>, passed: nat, notProven: nat, reachingTrades: nat, reachingDays: nat, firstPasses: nat,
    recovered: nat, lengths: seq<int>)
  {
    && passed == CountOf(outcomes, Passed)
    && notProven == CountOf(outcomes, NotProven)
    && reachingTrades == CountOf(outcomes, ReachedTrades)
    && reachingDays == CountOf(outcomes, ReachedDays)
    && firstPasses == CountOf(outcomes, FirstPassed)
    && recovered == CountOf(outcomes, Recovered)
    && lengths == PassLengths(outcomes)
  }

  lemma {:induction false} CountersAre(
    outcomes: seq<Outcome>, passed: nat, notProven: nat, reachingTrades: nat, reachingDays: nat, firstPasses: nat,
    recovered: nat, lengths: seq<int>)
    requires Counters(outcomes, passed, notProven, reachingTrades, reachingDays, firstPasses, recovered, lengths)
    ensures passed == CountOf(outcomes, Passed) && notProven == CountOf(outcomes, NotProven)
    ensures reachingTrades == CountOf(outcomes, ReachedTrades) && reachingDays == CountOf(outcomes, ReachedDays)
    ensures firstPasses == CountOf(outcomes, FirstPassed) && recovered == CountOf(outcomes, Recovered)
    ensures lengths == PassLengths(outcomes)
  {
  }

  lemma {:induction false} CountersMore(
    outcomes: seq<Outcome>, o: Outcome, passed: nat, notProven: nat, reachingTrades: nat, reachingDays: nat,
    firstPasses: nat, recovered: nat, lengths: seq<int>)
    requires Counters(outcomes, passed, notProven, reachingTrades, reachingDays, firstPasses, recovered, lengths)
    ensures Counters(outcomes + [o],
      passed + (if Passed(o) then 1 else 0), notProven + (if NotProven(o) then 1 else 0),
      reachingTrades + (if ReachedTrades(o) then 1 else 0), reachingDays + (if ReachedDays(o) then 1 else 0),
      firstPasses + (if FirstPassed(o) then 1 else 0), recovered + (if Recovered(o) then 1 else 0),
      if o.passAt.Some? then lengths + [o.passAt.value - |outcomes| + 1] else lengths)
  {
    CountMore(outcomes, o, Passed);
    CountMore(outcomes, o, NotProven);
    CountMore(outcomes, o, ReachedTrades);
    CountMore(outcomes, o, ReachedDays);
    CountMore(outcomes, o, FirstPassed);
    CountMore(outcomes, o, Recovered);
    PassLengthsMore(outcomes, o);
  }

  /** Count the blockers of one start, if it has any. */
  method CountThese(
    counts: map<string, nat>, blockers: seq<string>, ghost outcomes: seq<Outcome>, ghost o: Outcome,
    ghost pick: Outcome -> seq<string>)
    returns (more: map<string, nat>)
    requires Counts(counts, outcomes, pick) && blockers == pick(o)
    ensures Counts(more, outcomes + [o], pick)
  {
    hide Counts, Tally;
    more := counts;
    if blockers != [] {
      more := IncrementBlockerCounts(counts, blockers);
    }
    TallyMore(counts, more, outcomes, o, pick);
  }

  /** _proof_horizon_summary: scan every start and count what happened. */
  method ProofHorizonSummary(trades: seq<Trade>, sessions: seq<Day>, day: int -> Day, th: Thresholds)
    returns (s: Summary)
    ensures SummaryOf(s, Groups(trades, day, sessions), th, IsEod, |ExitDays(trades, day)|)
  {
    hide IsOutcome, CountOf, PassLengths, Tally, Counters, Counts;
    var bySession := GroupByExitSession(trades, day);
    var groups := seq(|sessions|, k requires 0 <= k < |sessions| =>
      if sessions[k] in bySession then bySession[sessions[k]] else []);
    GroupsFromMap(trades, sessions, day, bySession, groups);
    var passed, notProven, reachingTrades, reachingDays, firstPasses, recovered := 0, 0, 0, 0, 0, 0;
    var firstBlockers: map<string, nat> := map[];
    var terminalBlockers: map<string, nat> := map[];
    var lengths: seq<int> := [];
    ghost var outcomes: seq<Outcome> := [];
    NothingCounted();
    for i := 0 to |sessions|
      invariant |outcomes| == i && forall k :: 0 <= k < i ==> IsOutcome(groups, k, th, IsEod, outcomes[k])
      invariant Counters(outcomes, passed, notProven, reachingTrades, reachingDays, firstPasses, recovered, lengths)
      invariant Counts(firstBlockers, outcomes, AtFirst) && Counts(terminalBlockers, outcomes, AtEnd)
    {
      var o := ScanStart(groups, i, th, IsEod);
      OutcomeLogic(groups, i, th, IsEod, o);
      CountersMore(outcomes, o, passed, notProven, reachingTrades, reachingDays, firstPasses, recovered, lengths);
      if o.reachedDays {
        reachingDays := reachingDays + 1;
      }
      if o.reachedTrades {
        reachingTrades := reachingTrades + 1;
        if o.firstBlockers == [] {
          firstPasses := firstPasses + 1;
        }
      }
      NoBlockersWithoutReach(groups, i, th, IsEod, o);
      firstBlockers := CountThese(firstBlockers, o.firstBlockers, outcomes, o, AtFirst);
      terminalBlockers := CountThese(terminalBlockers, o.terminal, outcomes, o, AtEnd);
      if o.passAt.None? {
        notProven := notProven + 1;
      } else {
        passed := passed + 1;
        lengths := lengths + [o.passAt.value - i + 1];
        if o.reachedTrades && o.firstBlockers != [] {
          recovered := recovered + 1;
        }
      }
      outcomes := outcomes + [o];
    }
    CountersAre(outcomes, passed, notProven, reachingTrades, reachingDays, firstPasses, recovered, lengths);
    var sorted := SortInts(lengths);
    s := Summary(
      |sessions|, passed, notProven, reachingTrades, reachingDays, firstPasses, recovered,
      firstBlockers, terminalBlockers,
      Rate(passed, |sessions|), Rate(firstPasses, reachingTrades),
      CeilPercentile(sorted, 0.50), CeilPercentile(sorted, 0.90), CeilPercentile(sorted, 0.95),
      Last(sorted), |bySession|);
    assert |bySession| == |bySession.Keys|;
    assert AreOutcomes(groups, th, IsEod, outcomes) && Summarises(s, outcomes, |ExitDays(trades, day)|);
  }

  lemma {:induction false} NothingCounted()
    ensures Counters([], 0, 0, 0, 0, 0, 0, [])
    ensures Counts(map[], [], AtFirst) && Counts(map[], [], AtEnd)
  {
  }

  lemma {:induction false} NoBlockersWithoutReach(
    groups: seq<seq<Trade>>, i: nat, th: Thresholds, eod: string -> bool, o: Outcome)
    requires i < |groups| && IsOutcome(groups, i, th, eod, o)
    ensures !o.reachedTrades ==> o.firstBlockers == []
    ensures o.passAt.Some? ==> o.terminal == []
  {
  }

  lemma {:induction false} GroupsFromMap(
    trades: seq<Trade>, sessions: seq<Day>, day: int -> Day, bySession: map<Day, seq<Trade>>, groups: seq<seq<Trade>>)
    requires bySession.Keys == ExitDays(trades, day)
    requires forall d :: d in bySession ==> bySession[d] == TradesOn(trades, day, d)
    requires |groups| == |sessions|
    requires forall k :: 0 <= k < |sessions| ==>
      groups[k] == if sessions[k] in bySession then bySession[sessions[k]] else []
    ensures groups == Groups(trades, day, sessions)
  {
    forall k | 0 <= k < |sessions| ensures groups[k] == TradesOn(trades, day, sessions[k]) {
      NoTradesOn(trades, day, sessions[k]);
    }
  }
}
