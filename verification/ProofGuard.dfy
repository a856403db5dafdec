/** The nightly guard's own proof-horizon scan (nightly/cli.py), and its agreement with the audit. */
module ProofGuard {
  import opened Numbers
  import opened Domain
  import opened ProofScan
  import Horizon = ProofHorizon

  datatype Thresholds = Thresholds(
    minTrades: int,
    minPnl: real,
    minActiveDays: int,
    minProfitFactor: real,
    maxWinShare: real,
    maxEodLossShare: real)

  /** The audit's thresholds with the same limits. */
  function AsHorizon(th: Thresholds): Horizon.Thresholds {
    Horizon.Thresholds(th.minTrades, th.minPnl, th.minActiveDays, Some(th.minProfitFactor), Some(th.maxWinShare),
      Some(th.maxEodLossShare))
  }

  /** _proof_guard_blockers. */
  function Blockers(s: Stats, th: Thresholds): seq<string> {
    (if s.count < th.minTrades then ["sample_trades"] else [])
    + (if s.activeDays < th.minActiveDays then ["active_days"] else [])
    + (if s.pnl < th.minPnl then ["positive_pnl"] else [])
    + (if s.grossLoss > 0.0 && s.grossProfit / s.grossLoss < th.minProfitFactor then ["profit_factor"] else [])
    + (if s.pnl > 0.0 && s.bestWin > 0.0 && s.bestWin / s.pnl > th.maxWinShare then ["profit_concentration"] else [])
    + (if s.losses > 0 && s.eodLosses as real / s.losses as real > th.maxEodLossShare then ["eod_loss_share"] else [])
  }

  lemma {:induction false} BlockersAgree(s: Stats, th: Thresholds)
    ensures Blockers(s, th) == Horizon.Blockers(s, AsHorizon(th))
  {
  }

  // ---------------------------------------------------------------- exit reasons

  predicate IsSpace(c: char) {
    var u := c as int;
    || 9 <= u <= 13 || 28 <= u <= 32 || u == 133 || u == 160 || u == 5760 || 8192 <= u <= 8202
    || u == 8232 || u == 8233 || u == 8239 || u == 8287 || u == 12288
  }

  function StripLeft(s: string): string {
    if s != [] && IsSpace(s[0]) then StripLeft(s[1..]) else s
  }

  function StripRight(s: string): string {
    if s != [] && IsSpace(s[|s| - 1]) then StripRight(s[..|s| - 1]) else s
  }

  function LowerChar(c: char): char {
    if 'A' <= c <= 'Z' then (c as int + 32) as char else c
  }

  function Lower(s: string): (r: string)
    ensures |r| == |s|
  {
    seq(|s|, i requires 0 <= i < |s| => LowerChar(s[i]))
  }

  /** _is_eod_exit_reason: trimmed and lower-cased, the reason is one of two. */
  predicate IsEod(reason: string) {
    Lower(StripRight(StripLeft(reason))) in {"eod", "eod_flatten"}
  }

  /** The audit's exact "eod" is always an end-of-day exit for the guard too. */
  lemma {:induction false} EodIsEod()
    ensures IsEod("eod")
  {
    assert Lower("eod") == "eod";
  }

  // ---------------------------------------------------------------- the scan

  datatype Metrics = Metrics(
    eventualPassRate: Option<real>,
    firstPassRate: Option<real>,
    p95: Option<int>,
    slowest: Option<int>,
    activeTradeDays: nat)

  /** What the guard keeps of one start's outcome. */
  ghost predicate Scanned(
    groups: seq<seq<Trade>>, i: nat, th: Thresholds, passAt: Option<nat>, reached: bool, firstPassed: bool)
    requires i < |groups|
  {
    exists o :: Horizon.IsOutcome(groups, i, AsHorizon(th), IsEod, o)
                && passAt == o.passAt && reached == o.reachedTrades && firstPassed == Horizon.FirstPassed(o)
  }

  /** One start: extend the window until it is clear, noting whether it was clear when trades first sufficed. */
  method ScanStart(groups: seq<seq<Trade>>, i: nat, th: Thresholds)
    returns (passAt: Option<nat>, reached: bool, firstPassed: bool)
    requires i < |groups|
    ensures Scanned(groups, i, th, passAt, reached, firstPassed)
  {
    hide Horizon.Clear, Horizon.Blockers, Blockers, StatsOf, IsEod, AsHorizon, Window, ActiveDays;
    ghost var full := AsHorizon(th);
    assert full.minTrades == th.minTrades && full.minActiveDays == th.minActiveDays by { SameMinimums(th); }
    var n := |groups|;
    Horizon.NothingYet(groups, i, IsEod);
    var acc := Stats(0, 0.0, 0, 0.0, 0.0, 0.0, 0, 0);
    reached, firstPassed := false, false;
    ghost var first: nat := i;
    ghost var firstBlockers: seq<string> := [];
    var j := i;
    while j < n
      invariant i <= j <= n
      invariant acc == StatsOf(groups, i, j, IsEod)
      invariant forall k :: i <= k < j ==> !Horizon.Clear(groups, i, k, full, IsEod)
      invariant reached ==> first < j && Horizon.FirstReach(groups, i, first, th.minTrades)
                            && firstBlockers == Horizon.Blockers(StatsOf(groups, i, first + 1, IsEod), full)
      invariant !reached ==> firstBlockers == [] && forall k :: i <= k < j ==>
        !Horizon.Reached(groups, i, k, th.minTrades)
      invariant firstPassed <==> reached && firstBlockers == []
    {
      Horizon.StatsShape(groups, i, j, IsEod);
      acc := AddSession(groups, i, j, acc);
      Horizon.StatsShape(groups, i, j + 1, IsEod);
      WindowGrows(groups, i, j, j + 1);
      var blockers := Blockers(acc, th);
      BlockersAgree(acc, th);
      if !reached && acc.count >= th.minTrades {
        reached := true;
        first := j;
        firstBlockers := Horizon.Blockers(acc, full);
        if blockers == [] {
          firstPassed := true;
        }
      }
      Horizon.ClearAt(groups, i, j, full, IsEod);
      if blockers == [] {
        WindowGrows(groups, i, j + 1, n);
        assert reached && Horizon.FirstReach(groups, i, first, th.minTrades);
        assert Horizon.Clear(groups, i, j, full, IsEod);
        ghost var o := Horizon.Outcome(Some(j), reached, true, firstBlockers, []);
        assert Horizon.IsOutcome(groups, i, full, IsEod, o);
        passAt := Some(j);
        return;
      }
      j := j + 1;
    }
    Horizon.StatsShape(groups, i, n, IsEod);
    assert !reached ==> !Horizon.Reached(groups, i, n - 1, th.minTrades);
    if reached {
      assert Horizon.Reached(groups, i, first, th.minTrades);
      WindowGrows(groups, i, first + 1, n);
    }
    passAt := None;
    ghost var o := Horizon.Outcome(
      None, reached, ActiveDays(groups, i, n) >= th.minActiveDays, firstBlockers, Horizon.Blockers(acc, full));
    assert Horizon.IsOutcome(groups, i, full, IsEod, o);
  }

  lemma {:induction false} SameMinimums(th: Thresholds)
    ensures AsHorizon(th).minTrades == th.minTrades && AsHorizon(th).minActiveDays == th.minActiveDays
  {
  }

  /** Fold one session's trades into the running figures; the day counts before its trades do. */
  method AddSession(groups: seq<seq<Trade>>, ghost i: nat, j: nat, start: Stats) returns (acc: Stats)
    requires i <= j < |groups| && start == StatsOf(groups, i, j, IsEod)
    ensures acc == StatsOf(groups, i, j + 1, IsEod)
  {
    hide TradeStats, IsEod;
    acc := start;
    ghost var window := Window(groups, i, j);
    assert window + groups[j][..0] == window;
    ghost var days := ActiveDays(groups, i, j + 1);
    Horizon.DaysOnly(window, ActiveDays(groups, i, j), IsEod);
    if groups[j] != [] {
      acc := acc.(activeDays := acc.activeDays + 1);
    }
    for k := 0 to |groups[j]|
      invariant acc == TradeStats(window + groups[j][..k], days, IsEod)
    {
      var t := groups[j][k];
      OneMoreTrade(window + groups[j][..k], t, days, IsEod);
      Horizon.DaysOnly(window + groups[j][..k], days, IsEod);
      assert window + groups[j][..k] + [t] == window + groups[j][..k + 1];
      acc := acc.(count := acc.count + 1, pnl := acc.pnl + t.pnl);
      if t.pnl > 0.0 {
        acc := acc.(grossProfit := acc.grossProfit + t.pnl, bestWin := Max(acc.bestWin, t.pnl));
      } else if t.pnl < 0.0 {
        acc := acc.(grossLoss := acc.grossLoss + -t.pnl, losses := acc.losses + 1);
        if IsEod(t.exitReason) {
          acc := acc.(eodLosses := acc.eodLosses + 1);
        }
      }
    }
    assert groups[j][..|groups[j]|] == groups[j];
  }

  /** The guard's rates and percentiles, in terms of the outcomes of all starts. */
  ghost predicate Measures(m: Metrics, outcomes: seq<Horizon.Outcome>, days: nat) {
    var lengths := SortInts(Horizon.PassLengths(outcomes));
    && m.eventualPassRate == Horizon.Rate(Horizon.CountOf(outcomes, Horizon.Passed), |outcomes|)
    && m.firstPassRate == Horizon.Rate(
       Horizon.CountOf(outcomes, Horizon.FirstPassed), Horizon.CountOf(outcomes, Horizon.ReachedTrades))
    && m.p95 == CeilPercentileByTruncation(lengths, 0.95)
    && m.slowest == Horizon.Last(lengths)
    && m.activeTradeDays == days
  }

  ghost predicate MetricsOf(m: Metrics, groups: seq<seq<Trade>>, th: Thresholds, days: nat) {
    exists outcomes :: Horizon.AreOutcomes(groups, AsHorizon(th), IsEod, outcomes) && Measures(m, outcomes, days)
  }

  /** The scanning part of _proof_guard_metrics. */
  method ProofGuardMetrics(trades: seq<Trade>, sessions: seq<Day>, day: int -> Day, th: Thresholds) returns (m: Metrics)
    ensures MetricsOf(m, Groups(trades, day, sessions), th, |ExitDays(trades, day)|)
  {
    hide Horizon.IsOutcome, Horizon.CountOf, Horizon.PassLengths, IsEod, AsHorizon;
    var bySession := GroupByExitSession(trades, day);
    var groups := seq(|sessions|, k requires 0 <= k < |sessions| =>
      if sessions[k] in bySession then bySession[sessions[k]] else []);
    Horizon.GroupsFromMap(trades, sessions, day, bySession, groups);
    var passed, reaching, firstPasses := 0, 0, 0;
    var lengths: seq<int> := [];
    ghost var outcomes: seq<Horizon.Outcome> := [];
    Horizon.NothingCounted();
    for i := 0 to |sessions|
      invariant |outcomes| == i && forall k :: 0 <= k < i ==>
        Horizon.IsOutcome(groups, k, AsHorizon(th), IsEod, outcomes[k])
      invariant passed == Horizon.CountOf(outcomes, Horizon.Passed)
      invariant reaching == Horizon.CountOf(outcomes, Horizon.ReachedTrades)
      invariant firstPasses == Horizon.CountOf(outcomes, Horizon.FirstPassed)
      invariant lengths == Horizon.PassLengths(outcomes)
    {
      var passAt, reached, firstPassed := ScanStart(groups, i, th);
      ghost var o :| Horizon.IsOutcome(groups, i, AsHorizon(th), IsEod, o)
                     && passAt == o.passAt && reached == o.reachedTrades && firstPassed == Horizon.FirstPassed(o);
      Horizon.CountMore(outcomes, o, Horizon.Passed);
      Horizon.CountMore(outcomes, o, Horizon.ReachedTrades);
      Horizon.CountMore(outcomes, o, Horizon.FirstPassed);
      Horizon.PassLengthsMore(outcomes, o);
      if reached {
        reaching := reaching + 1;
        if firstPassed {
          firstPasses := firstPasses + 1;
        }
      }
      if passAt.Some? {
        passed := passed + 1;
        lengths := lengths + [passAt.value - i + 1];
      }
      outcomes := outcomes + [o];
    }
    var sorted := SortInts(lengths);
    m := Metrics(
      Horizon.Rate(passed, |sessions|), Horizon.Rate(firstPasses, reaching),
      CeilPercentileByTruncation(sorted, 0.95), Horizon.Last(sorted), |bySession|);
    assert |bySession| == |bySession.Keys|;
    assert Horizon.AreOutcomes(groups, AsHorizon(th), IsEod, outcomes) &&
      Measures(m, outcomes, |ExitDays(trades, day)|);
  }

  // ---------------------------------------------------------------- the twins

  /** Both scans classify a losing exit alike: it is exactly "eod", or it does not normalise to an end-of-day reason. */
  ghost predicate SameClassification(trades: seq<Trade>) {
    forall t :: t in trades && t.pnl < 0.0 ==> (IsEod(t.exitReason) <==> Horizon.IsEod(t.exitReason))
  }

  lemma {:induction false} WindowsAgree(trades: seq<Trade>, sessions: seq<Day>, day: int -> Day, i: nat, j: nat)
    requires SameClassification(trades) && i <= j <= |sessions|
    ensures var groups := Groups(trades, day, sessions);
            StatsOf(groups, i, j, IsEod) == StatsOf(groups, i, j, Horizon.IsEod)
  {
    hide IsEod, Horizon.IsEod;
    var groups := Groups(trades, day, sessions);
    WindowTrades(groups, i, j);
    forall t | t in Window(groups, i, j) ensures t in trades {
      var k :| i <= k < j && t in groups[k];
      TradesOnMember(trades, day, sessions[k]);
    }
    SameEodLosses(Window(groups, i, j), IsEod, Horizon.IsEod);
  }

  lemma {:induction false} OutcomeCarriesOver(
    trades: seq<Trade>, sessions: seq<Day>, day: int -> Day, th: Horizon.Thresholds, i: nat, o: Horizon.Outcome)
    requires SameClassification(trades) && i < |sessions|
    requires Horizon.IsOutcome(Groups(trades, day, sessions), i, th, IsEod, o)
    ensures Horizon.IsOutcome(Groups(trades, day, sessions), i, th, Horizon.IsEod, o)
  {
    var groups := Groups(trades, day, sessions);
    hide SameClassification, StatsOf, Horizon.Blockers, IsEod, Horizon.IsEod, Groups;
    forall j | i <= j <= |sessions|
      ensures StatsOf(groups, i, j, IsEod) == StatsOf(groups, i, j, Horizon.IsEod)
    {
      WindowsAgree(trades, sessions, day, i, j);
    }
    forall k | i <= k < |sessions|
      ensures Horizon.Clear(groups, i, k, th, IsEod) == Horizon.Clear(groups, i, k, th, Horizon.IsEod)
    {
      assert StatsOf(groups, i, k + 1, IsEod) == StatsOf(groups, i, k + 1, Horizon.IsEod);
    }
    if o.reachedTrades {
      var f: nat :| Horizon.FirstReach(groups, i, f, th.minTrades)
        && o.firstBlockers == Horizon.Blockers(StatsOf(groups, i, f + 1, IsEod), th);
      assert o.firstBlockers == Horizon.Blockers(StatsOf(groups, i, f + 1, Horizon.IsEod), th);
    }
  }

  /** With equal thresholds and reasons that both classify alike, the audit and the guard report the same. */
  lemma {:induction false} TwinsAgree(
    trades: seq<Trade>, sessions: seq<Day>, day: int -> Day, th: Thresholds, s: Horizon.Summary, m: Metrics)
    requires SameClassification(trades)
    requires Horizon.SummaryOf(s, Groups(trades, day, sessions), AsHorizon(th), Horizon.IsEod, |ExitDays(trades, day)|)
    requires MetricsOf(m, Groups(trades, day, sessions), th, |ExitDays(trades, day)|)
    ensures m == Metrics(s.eventualPassRate, s.firstPassRate, s.p95, s.slowest, s.activeTradeDays)
  {
    hide Horizon.IsOutcome, Horizon.CountOf, Horizon.PassLengths, SameClassification;
    var groups, days := Groups(trades, day, sessions), |ExitDays(trades, day)|;
    var audited :| Horizon.AreOutcomes(groups, AsHorizon(th), Horizon.IsEod, audited) &&
      Horizon.Summarises(s, audited, days);
    var guarded :| Horizon.AreOutcomes(groups, AsHorizon(th), IsEod, guarded) && Measures(m, guarded, days);
    forall i | 0 <= i < |groups| ensures audited[i] == guarded[i] {
      OutcomeCarriesOver(trades, sessions, day, AsHorizon(th), i, guarded[i]);
      Horizon.OutcomeIsUnique(groups, i, AsHorizon(th), Horizon.IsEod, audited[i], guarded[i]);
    }
    assert audited == guarded;
    PercentilesAgree(SortInts(Horizon.PassLengths(guarded)), 0.95);
  }

  /** The audit and the guard report the same on these trades, for all sessions and all thresholds. */
  ghost predicate ReportsAgree(trades: seq<Trade>, day: int -> Day) {
    forall sessions: seq<Day>, th: Thresholds, s: Horizon.Summary, m: Metrics ::
      Horizon.SummaryOf(s, Groups(trades, day, sessions), AsHorizon(th), Horizon.IsEod, |ExitDays(trades, day)|) &&
      MetricsOf(m, Groups(trades, day, sessions), th, |ExitDays(trades, day)|) ==>
      m == Metrics(s.eventualPassRate, s.firstPassRate, s.p95, s.slowest, s.activeTradeDays)
  }

  lemma {:induction false} TradesOnHolds(trades: seq<Trade>, day: int -> Day, t: Trade)
    requires t in trades
    ensures t in TradesOn(trades, day, day(t.exitTime))
  {
    var n := |trades| - 1;
    assert trades == trades[..n] + [trades[n]];
    if t in trades[..n] {
      TradesOnHolds(trades[..n], day, t);
    }
  }

  /** The guard counts every loss that the audit counts, and a loss of another reading on top. */
  lemma {:induction false} MoreEodLosses(ts: seq<Trade>, t: Trade)
    ensures EodLosses(ts, Horizon.IsEod) <= EodLosses(ts, IsEod)
    ensures t in ts && t.pnl < 0.0 ==> Losses(ts) > 0
    ensures t in ts && t.pnl < 0.0 && IsEod(t.exitReason) && !Horizon.IsEod(t.exitReason) ==>
              EodLosses(ts, Horizon.IsEod) < EodLosses(ts, IsEod)
  {
    hide IsEod;
    EodIsEod();
    if ts != [] {
      var n := |ts| - 1;
      assert ts == ts[..n] + [ts[n]];
      MoreEodLosses(ts[..n], t);
    }
  }

  /** Limits that a window meets exactly. */
  function Tight(s: Stats): Thresholds
    requires s.losses > 0
  {
    Thresholds(0, s.pnl, 0,
      if s.grossLoss > 0.0 then s.grossProfit / s.grossLoss else 0.0,
      if s.pnl > 0.0 && s.bestWin > 0.0 then s.bestWin / s.pnl else 0.0,
      s.eodLosses as real / s.losses as real)
  }

  lemma {:induction false} TightSeparates(a: Stats, b: Stats)
    requires a.losses > 0 && b == a.(eodLosses := b.eodLosses) && a.eodLosses < b.eodLosses
    ensures Horizon.Blockers(a, AsHorizon(Tight(a))) == []
    ensures Horizon.Blockers(b, AsHorizon(Tight(a))) != []
  {
    QuotientSign((b.eodLosses - a.eodLosses) as real, a.losses as real);
    assert b.eodLosses as real / a.losses as real - a.eodLosses as real / a.losses as real
        == (b.eodLosses - a.eodLosses) as real / a.losses as real;
  }

  /** The outcome of the only start when a single session is scanned and any number of trades will do. */
  lemma {:induction false} SingleSession(ts: seq<Trade>, th: Horizon.Thresholds, eod: string -> bool)
    returns (o: Horizon.Outcome)
    requires th.minTrades == 0 && th.minActiveDays == 0
    ensures Horizon.AreOutcomes([ts], th, eod, [o])
    ensures o.passAt.Some? <==> Horizon.Blockers(StatsOf([ts], 0, 1, eod), th) == []
    ensures o.passAt.Some? ==> o.firstBlockers == [] && o.terminal == []
    ensures StatsOf([ts], 0, 1, eod) == TradeStats(ts, if ts != [] then 1 else 0, eod)
  {
    hide Horizon.Blockers, TradeStats;
    assert Window([ts], 0, 0) == [] && Window([ts], 0, 1) == ts;
    assert ActiveDays([ts], 0, 0) == 0 && ActiveDays([ts], 0, 1) == if ts != [] then 1 else 0;
    var blockers := Horizon.Blockers(StatsOf([ts], 0, 1, eod), th);
    o := Horizon.Outcome(if blockers == [] then Some(0) else None, true, true, blockers, blockers);
    assert Horizon.FirstReach([ts], 0, 0, 0);
  }

  lemma {:induction false} AuditOf(groups: seq<seq<Trade>>, th: Horizon.Thresholds, o: Horizon.Outcome, days: nat)
    returns (s: Horizon.Summary)
    requires Horizon.AreOutcomes(groups, th, Horizon.IsEod, [o]) && o.firstBlockers == [] && o.terminal == []
    ensures Horizon.SummaryOf(s, groups, th, Horizon.IsEod, days)
    ensures s.eventualPassRate == Some(if o.passAt.Some? then 1.0 else 0.0)
  {
    hide Horizon.AreOutcomes, Horizon.Counts, Horizon.CountOf, SortInts, CeilPercentile;
    var outcomes, lengths := [o], SortInts(Horizon.PassLengths([o]));
    OnePassed(o);
    s := Horizon.Summary(
      1, Horizon.CountOf(outcomes, Horizon.Passed), Horizon.CountOf(outcomes, Horizon.NotProven),
      Horizon.CountOf(outcomes, Horizon.ReachedTrades), Horizon.CountOf(outcomes, Horizon.ReachedDays),
      Horizon.CountOf(outcomes, Horizon.FirstPassed), Horizon.CountOf(outcomes, Horizon.Recovered), map[], map[],
      Horizon.Rate(Horizon.CountOf(outcomes, Horizon.Passed), 1),
      Horizon.Rate(Horizon.CountOf(outcomes, Horizon.FirstPassed), Horizon.CountOf(outcomes, Horizon.ReachedTrades)),
      CeilPercentile(lengths, 0.50), CeilPercentile(lengths, 0.90), CeilPercentile(lengths, 0.95),
      Horizon.Last(lengths), days);
    NothingBlocked(o);
    assert Horizon.Summarises(s, outcomes, days);
  }

  lemma {:induction false} GuardOf(groups: seq<seq<Trade>>, th: Thresholds, o: Horizon.Outcome, days: nat)
    returns (m: Metrics)
    requires Horizon.AreOutcomes(groups, AsHorizon(th), IsEod, [o])
    ensures MetricsOf(m, groups, th, days)
    ensures m.eventualPassRate == Some(if o.passAt.Some? then 1.0 else 0.0)
  {
    hide Horizon.AreOutcomes;
    var outcomes, lengths := [o], SortInts(Horizon.PassLengths([o]));
    OnePassed(o);
    m := Metrics(
      Horizon.Rate(Horizon.CountOf(outcomes, Horizon.Passed), 1),
      Horizon.Rate(Horizon.CountOf(outcomes, Horizon.FirstPassed), Horizon.CountOf(outcomes, Horizon.ReachedTrades)),
      CeilPercentileByTruncation(lengths, 0.95), Horizon.Last(lengths), days);
    assert Measures(m, outcomes, days);
  }

  lemma {:induction false} NothingBlocked(o: Horizon.Outcome)
    requires o.firstBlockers == [] && o.terminal == []
    ensures Horizon.Counts(map[], [o], Horizon.AtFirst) && Horizon.Counts(map[], [o], Horizon.AtEnd)
  {
    assert [o][..0] == [];
  }

  lemma {:induction false} OnePassed(o: Horizon.Outcome)
    ensures Horizon.CountOf([o], Horizon.Passed) == if o.passAt.Some? then 1 else 0
  {
    assert [o][..0] == [];
  }

  /** One losing trade read differently shows in the reports on its own session, under limits the audit just meets. */
  lemma {:induction false} DifferenceShows(trades: seq<Trade>, day: int -> Day, t: Trade)
    requires t in trades && t.pnl < 0.0 && IsEod(t.exitReason) && !Horizon.IsEod(t.exitReason)
    ensures !ReportsAgree(trades, day)
  {
    hide IsEod, Horizon.IsEod, Horizon.Blockers, Horizon.SummaryOf, MetricsOf, Horizon.AreOutcomes, Tight;
    var ts, sessions, days := TradesOn(trades, day, day(t.exitTime)), [day(t.exitTime)], |ExitDays(trades, day)|;
    assert Groups(trades, day, sessions) == [ts];
    TradesOnHolds(trades, day, t);
    MoreEodLosses(ts, t);
    var audited, guarded := TradeStats(ts, 1, Horizon.IsEod), TradeStats(ts, 1, IsEod);
    var th := Tight(audited);
    TightSeparates(audited, guarded);
    TightMinimums(audited);
    var a := SingleSession(ts, AsHorizon(th), Horizon.IsEod);
    var g := SingleSession(ts, AsHorizon(th), IsEod);
    var s := AuditOf([ts], AsHorizon(th), a, days);
    var m := GuardOf([ts], th, g, days);
    assert m.eventualPassRate != s.eventualPassRate;
  }

  lemma {:induction false} TightMinimums(s: Stats)
    requires s.losses > 0
    ensures AsHorizon(Tight(s)).minTrades == 0 && AsHorizon(Tight(s)).minActiveDays == 0
  {
  }

  /** The reports agree, whatever the sessions and thresholds, exactly if every losing trade is classified alike. */
  lemma {:induction false} ReportsAgreeIffSameClassification(trades: seq<Trade>, day: int -> Day)
    ensures ReportsAgree(trades, day) <==> SameClassification(trades)
  {
    hide IsEod, Horizon.SummaryOf, MetricsOf;
    EodIsEod();
    if SameClassification(trades) {
      forall sessions: seq<Day>, th: Thresholds, s: Horizon.Summary, m: Metrics |
        Horizon.SummaryOf(s, Groups(trades, day, sessions), AsHorizon(th), Horizon.IsEod, |ExitDays(trades, day)|) &&
        MetricsOf(m, Groups(trades, day, sessions), th, |ExitDays(trades, day)|)
        ensures m == Metrics(s.eventualPassRate, s.firstPassRate, s.p95, s.slowest, s.activeTradeDays)
      {
        TwinsAgree(trades, sessions, day, th, s, m);
      }
    } else {
      var t :| t in trades && t.pnl < 0.0 && IsEod(t.exitReason) != Horizon.IsEod(t.exitReason);
      DifferenceShows(trades, day, t);
    }
  }

  lemma {:induction false} FlattenReasonSeparates()
    ensures IsEod("eod_flatten") && !Horizon.IsEod("eod_flatten")
    ensures IsEod(" EOD ") && !Horizon.IsEod(" EOD ")
  {
    assert Lower("eod_flatten") == "eod_flatten";
    assert " EOD "[1..] == "EOD " && "EOD "[..3] == "EOD";
    assert Lower("EOD") == "eod";
  }

  /** A single loss closed with the raw flatten reason, or with "eod" in capitals, is such a trade. */
  lemma {:induction false} FlattenReasonShows(trades: seq<Trade>, day: int -> Day, t: Trade)
    requires t in trades && t.pnl < 0.0 && (t.exitReason == "eod_flatten" || t.exitReason == " EOD ")
    ensures !ReportsAgree(trades, day)
  {
    hide IsEod, Horizon.IsEod, ReportsAgree;
    FlattenReasonSeparates();
    DifferenceShows(trades, day, t);
  }
}
