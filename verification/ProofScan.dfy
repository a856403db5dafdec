/** What a proof-horizon window is, computed from scratch, and nearest-rank percentiles. */
module ProofScan {
  import opened Numbers
  import opened Domain
  import opened Sorting

  // ---------------------------------------------------------------- one list of trades, from scratch

  function GrossProfit(ts: seq<Trade>): real {
    if ts == [] then 0.0
    else GrossProfit(ts[..|ts| - 1]) + if ts[|ts| - 1].pnl > 0.0 then ts[|ts| - 1].pnl else 0.0
  }

  function GrossLoss(ts: seq<Trade>): real {
    if ts == [] then 0.0
    else GrossLoss(ts[..|ts| - 1]) + if ts[|ts| - 1].pnl < 0.0 then -ts[|ts| - 1].pnl else 0.0
  }

  /** The largest winning trade, zero if none wins. */
  function BestWin(ts: seq<Trade>): (best: real)
    ensures best >= 0.0 && forall t :: t in ts ==> t.pnl <= best
    ensures best > 0.0 ==> exists t :: t in ts && t.pnl == best
  {
    if ts == [] then 0.0
    else
      assert ts == ts[..|ts| - 1] + [ts[|ts| - 1]];
      Max(BestWin(ts[..|ts| - 1]), ts[|ts| - 1].pnl)
  }

  function Losses(ts: seq<Trade>): nat {
    if ts == [] then 0 else Losses(ts[..|ts| - 1]) + if ts[|ts| - 1].pnl < 0.0 then 1 else 0
  }

  function EodLosses(ts: seq<Trade>, eod: string -> bool): nat {
    if ts == [] then 0
    else EodLosses(ts[..|ts| - 1], eod) + if ts[|ts| - 1].pnl < 0.0 && eod(ts[|ts| - 1].exitReason) then 1 else 0
  }

  // ---------------------------------------------------------------- windows of sessions

  datatype Stats = Stats(
    count: nat, pnl: real, activeDays: nat, grossProfit: real, grossLoss: real, bestWin: real, losses: nat,
    eodLosses: nat)

  /** The trades that exit in sessions i up to but not including j. */
  function Window(groups: seq<seq<Trade>>, i: nat, j: nat): seq<Trade>
    requires i <= j <= |groups|
  {
    if i == j then [] else Window(groups, i, j - 1) + groups[j - 1]
  }

  function ActiveDays(groups: seq<seq<Trade>>, i: nat, j: nat): nat
    requires i <= j <= |groups|
  {
    if i == j then 0 else ActiveDays(groups, i, j - 1) + if groups[j - 1] != [] then 1 else 0
  }

  function TradeStats(ts: seq<Trade>, days: nat, eod: string -> bool): Stats {
    Stats(|ts|, TotalPnl(ts), days, GrossProfit(ts), GrossLoss(ts), BestWin(ts), Losses(ts), EodLosses(ts, eod))
  }

  function StatsOf(groups: seq<seq<Trade>>, i: nat, j: nat, eod: string -> bool): Stats
    requires i <= j <= |groups|
  {
    TradeStats(Window(groups, i, j), ActiveDays(groups, i, j), eod)
  }

  /** One more trade updates each figure on its own. */
  lemma {:induction false} OneMoreTrade(ts: seq<Trade>, t: Trade, days: nat, eod: string -> bool)
    ensures var s := TradeStats(ts, days, eod);
            TradeStats(ts + [t], days, eod) == Stats(
              s.count + 1, s.pnl + t.pnl, days,
              s.grossProfit + (if t.pnl > 0.0 then t.pnl else 0.0),
              s.grossLoss + (if t.pnl < 0.0 then -t.pnl else 0.0),
              if t.pnl > 0.0 then Max(s.bestWin, t.pnl) else s.bestWin,
              s.losses + (if t.pnl < 0.0 then 1 else 0),
              s.eodLosses + (if t.pnl < 0.0 && eod(t.exitReason) then 1 else 0))
  {
    assert (ts + [t])[..|ts|] == ts;
  }

  /** A longer window holds at least as many trades and active days. */
  lemma {:induction false} WindowGrows(groups: seq<seq<Trade>>, i: nat, j: nat, k: nat)
    requires i <= j <= k <= |groups|
    ensures |Window(groups, i, j)| <= |Window(groups, i, k)|
    ensures ActiveDays(groups, i, j) <= ActiveDays(groups, i, k)
    decreases k
  {
    if j < k {
      WindowGrows(groups, i, j, k - 1);
    }
  }

  /** A later start sees at most as many trades and active days by the end of the data. */
  lemma {:induction false} SuffixShrinks(groups: seq<seq<Trade>>, i: nat, k: nat, j: nat)
    requires i <= k <= j <= |groups|
    ensures |Window(groups, k, j)| <= |Window(groups, i, j)|
    ensures ActiveDays(groups, k, j) <= ActiveDays(groups, i, j)
    decreases j
  {
    if k < j {
      SuffixShrinks(groups, i, k, j - 1);
    }
  }

  /** Only how losing trades are classified matters to the figures. */
  lemma {:induction false} SameEodLosses(ts: seq<Trade>, eod: string -> bool, other: string -> bool)
    requires forall t :: t in ts && t.pnl < 0.0 ==> eod(t.exitReason) == other(t.exitReason)
    ensures EodLosses(ts, eod) == EodLosses(ts, other)
  {
    if ts != [] {
      assert ts == ts[..|ts| - 1] + [ts[|ts| - 1]];
      SameEodLosses(ts[..|ts| - 1], eod, other);
    }
  }

  lemma {:induction false} WindowTrades(groups: seq<seq<Trade>>, i: nat, j: nat)
    requires i <= j <= |groups|
    ensures forall t :: t in Window(groups, i, j) ==> exists k :: i <= k < j && t in groups[k]
  {
    if i < j {
      WindowTrades(groups, i, j - 1);
    }
  }

  // ---------------------------------------------------------------- trades by exit session

  /** The trades that exit on one market day, in their original order. */
  function TradesOn(trades: seq<Trade>, day: int -> Day, d: Day): seq<Trade> {
    if trades == [] then []
    else
      var rest := TradesOn(trades[..|trades| - 1], day, d);
      if day(trades[|trades| - 1].exitTime) == d then rest + [trades[|trades| - 1]] else rest
  }

  function ExitDays(trades: seq<Trade>, day: int -> Day): set<Day> {
    set t | t in trades :: day(t.exitTime)
  }

  function Groups(trades: seq<Trade>, day: int -> Day, sessions: seq<Day>): (groups: seq<seq<Trade>>)
    ensures |groups| == |sessions|
  {
    seq(|sessions|, k requires 0 <= k < |sessions| => TradesOn(trades, day, sessions[k]))
  }

  lemma {:induction false} NoTradesOn(trades: seq<Trade>, day: int -> Day, d: Day)
    ensures TradesOn(trades, day, d) == [] <==> d !in ExitDays(trades, day)
  {
    if trades != [] {
      var n := |trades| - 1;
      assert trades == trades[..n] + [trades[n]];
      NoTradesOn(trades[..n], day, d);
    }
  }

  lemma {:induction false} TradesOnMember(trades: seq<Trade>, day: int -> Day, d: Day)
    ensures forall t :: t in TradesOn(trades, day, d) ==> t in trades
  {
    if trades != [] {
      TradesOnMember(trades[..|trades| - 1], day, d);
      assert trades == trades[..|trades| - 1] + [trades[|trades| - 1]];
    }
  }

  /** The grouping loop over all trades. */
  method GroupByExitSession(trades: seq<Trade>, day: int -> Day) returns (bySession: map<Day, seq<Trade>>)
    ensures bySession.Keys == ExitDays(trades, day)
    ensures forall d :: d in bySession ==> bySession[d] == TradesOn(trades, day, d)
  {
    bySession := map[];
    for i := 0 to |trades|
      invariant bySession.Keys == ExitDays(trades[..i], day)
      invariant forall d :: d in bySession ==> bySession[d] == TradesOn(trades[..i], day, d)
    {
      var d := day(trades[i].exitTime);
      assert trades[..i + 1] == trades[..i] + [trades[i]];
      assert trades[..i + 1][..i] == trades[..i];
      NoTradesOn(trades[..i], day, d);
      bySession := bySession[d := (if d in bySession then bySession[d] else []) + [trades[i]]];
    }
    assert trades[..|trades|] == trades;
  }

  // ---------------------------------------------------------------- percentiles

  predicate Ascending(s: seq<int>) {
    forall i, j :: 0 <= i < j < |s| ==> s[i] <= s[j]
  }

  predicate Smaller(x: int, y: int) {
    x < y
  }

  /** list.sort on integers. */
  function SortInts(s: seq<int>): (r: seq<int>)
    ensures Ascending(r) && |r| == |s|
    ensures forall y :: y in r <==> y in s
  {
    SortByKeepsOrder(s, Smaller);
    SortBy(s, Smaller)
  }

  function Clamp(index: int, length: nat): (r: nat)
    requires length > 0
    ensures r < length
    ensures 0 <= index < length ==> r == index
  {
    if index < 0 then 0 else if index >= length then length - 1 else index
  }

  /** _ceil_percentile of the horizon audit: round the rank up. */
  function CeilPercentile(values: seq<int>, pct: real): Option<int> {
    if values == [] then None
    else Some(values[Clamp(Ceil(|values| as real * pct) - 1, |values|)])
  }

  /** _ceil_percentile of the nightly guard: truncate the rank, then add one if that lost something. */
  function CeilPercentileByTruncation(values: seq<int>, pct: real): Option<int>
    requires pct >= 0.0
  {
    if values == [] then None
    else
      var rank := |values| as real * pct;
      var index := rank.Floor;
      Some(values[Clamp((if rank != index as real then index + 1 else index) - 1, |values|)])
  }

  lemma {:induction false} PercentilesAgree(values: seq<int>, pct: real)
    requires pct >= 0.0
    ensures CeilPercentile(values, pct) == CeilPercentileByTruncation(values, pct)
  {
  }

  function CountAtMost(values: seq<int>, v: int): nat {
    if values == [] then 0
    else CountAtMost(values[..|values| - 1], v) + if values[|values| - 1] <= v then 1 else 0
  }

  lemma {:induction false} CountAtMostAscending(values: seq<int>, v: int, k: nat)
    requires Ascending(values) && k <= |values|
    ensures (forall i :: 0 <= i < k ==> values[i] <= v) ==> CountAtMost(values, v) >= k
    ensures (forall i :: k <= i < |values| ==> values[i] > v) ==> CountAtMost(values, v) <= k
    decreases |values|
  {
    if k < |values| {
      CountAtMostAscending(values[..|values| - 1], v, k);
    } else if k > 0 {
      CountAtMostAscending(values[..|values| - 1], v, k - 1);
    }
  }

  /** The nearest-rank percentile: the least listed value that a share `pct` of the values does not exceed. */
  lemma {:induction false} NearestRank(values: seq<int>, pct: real, u: int)
    requires Ascending(values) && values != [] && 0.0 < pct <= 1.0
    ensures var v := CeilPercentile(values, pct).value;
            && v in values
            && CountAtMost(values, v) as real >= |values| as real * pct
            && (u < v ==> (CountAtMost(values, u) as real) < |values| as real * pct)
  {
    hide CountAtMost;
    RankInRange(|values|, pct);
    AtRank(values, |values| as real * pct, u);
  }

  lemma {:induction false} AtRank(values: seq<int>, rank: real, u: int)
    requires Ascending(values) && 0.0 < rank <= |values| as real
    ensures 0 <= Ceil(rank) - 1 < |values|
    ensures var v := values[Ceil(rank) - 1];
            && CountAtMost(values, v) as real >= rank
            && (u < v ==> (CountAtMost(values, u) as real) < rank)
  {
    var k := Ceil(rank);
    CountAtMostAscending(values, values[k - 1], k);
    CountAtMostAscending(values, u, k - 1);
  }

  lemma {:induction false} RankInRange(n: nat, pct: real)
    requires n > 0 && 0.0 < pct <= 1.0
    ensures 0.0 < n as real * pct <= n as real
  {
    ProductSign(n as real, pct);
    TimesMonotone(pct, 1.0, n as real);
  }
}
