/** The point-in-time option snapshot ledger and its lookups (replay/option_snapshots.py). */
module OptionLedger {
  import opened Domain
  import opened Sorting

  /** One symbol's quoted contracts. A snapshot names each symbol once. */
  datatype Chain = Chain(symbol: Symbol, contracts: seq<Contract>)

  datatype Snapshot = Snapshot(cycleAt: int, chains: seq<Chain>)

  function UtcDate(t: int): int {
    t / DAY_LENGTH
  }

  /** A snapshot is visible at `asOf` if it was taken on the same UTC date and not later. */
  predicate Visible(s: Snapshot, asOf: int) {
    UtcDate(s.cycleAt) == UtcDate(asOf) && s.cycleAt <= asOf
  }

  predicate Sorted(snapshots: seq<Snapshot>) {
    forall i, j :: 0 <= i < j < |snapshots| ==> snapshots[i].cycleAt <= snapshots[j].cycleAt
  }

  predicate Earlier(a: Snapshot, b: Snapshot) {
    a.cycleAt < b.cycleAt
  }

  /** The snapshots by time, equal times in their original order. */
  function SortByTime(snapshots: seq<Snapshot>): (r: seq<Snapshot>)
    ensures |r| == |snapshots|
    ensures forall x :: x in r <==> x in snapshots
    ensures Sorted(r)
  {
    SortByKeepsOrder(snapshots, Earlier);
    SortBy(snapshots, Earlier)
  }

  lemma {:induction false} InsertLast(sorted: seq<Snapshot>, s: Snapshot)
    requires sorted == [] || sorted[|sorted| - 1].cycleAt <= s.cycleAt
    ensures InsertBy(sorted, s, Earlier) == sorted + [s]
  {
  }

  lemma {:induction false} SortOfSorted(snapshots: seq<Snapshot>)
    requires Sorted(snapshots)
    ensures SortByTime(snapshots) == snapshots
  {
    if snapshots != [] {
      var n := |snapshots| - 1;
      assert snapshots == snapshots[..n] + [snapshots[n]];
      InsertLast(snapshots[..n], snapshots[n]);
      SortOfSorted(snapshots[..n]);
    }
  }

  // ---------------------------------------------------------------- lookups

  /** The reversed scan: the last visible snapshot of a sorted ledger. */
  function LastVisible(sorted: seq<Snapshot>, asOf: int): Option<Snapshot> {
    if sorted == [] then None
    else if Visible(sorted[|sorted| - 1], asOf) then Some(sorted[|sorted| - 1])
    else LastVisible(sorted[..|sorted| - 1], asOf)
  }

  /** The contracts a snapshot quotes for a symbol; none if it does not name the symbol. */
  function ContractsFor(chains: seq<Chain>, symbol: Symbol): seq<Contract> {
    if chains == [] then []
    else if chains[0].symbol == symbol then chains[0].contracts
    else ContractsFor(chains[1..], symbol)
  }

  function ChainOf(snapshot: Option<Snapshot>, symbol: Symbol): seq<Contract> {
    if snapshot.None? then [] else ContractsFor(snapshot.value.chains, symbol)
  }

  /** The first contract with a given symbol in one snapshot. */
  function FindContract(chains: seq<Chain>, occSymbol: Symbol): Option<Contract> {
    if chains == [] then None
    else
      var found := FindIn(chains[0].contracts, occSymbol);
      if found.Some? then found else FindContract(chains[1..], occSymbol)
  }

  function FindIn(contracts: seq<Contract>, occSymbol: Symbol): Option<Contract> {
    if contracts == [] then None
    else if contracts[0].occSymbol == occSymbol then Some(contracts[0])
    else FindIn(contracts[1..], occSymbol)
  }

  /** The latest visible quote of one contract, looking past snapshots that do not list it. */
  function ContractAt(sorted: seq<Snapshot>, occSymbol: Symbol, asOf: int): Option<Contract> {
    if sorted == [] then None
    else
      var last := sorted[|sorted| - 1];
      var found := if Visible(last, asOf) then FindContract(last.chains, occSymbol) else None;
      if found.Some? then found else ContractAt(sorted[..|sorted| - 1], occSymbol, asOf)
  }

  /** chain_at_or_before, scanning backwards. */
  method ChainAtOrBefore(sorted: seq<Snapshot>, symbol: Symbol, asOf: int) returns (contracts: seq<Contract>)
    ensures contracts == ChainOf(LastVisible(sorted, asOf), symbol)
  {
    var i := |sorted|;
    assert sorted[..i] == sorted;
    while i > 0
      invariant 0 <= i <= |sorted|
      invariant LastVisible(sorted[..i], asOf) == LastVisible(sorted, asOf)
    {
      i := i - 1;
      assert sorted[..i + 1][..i] == sorted[..i];
      if UtcDate(sorted[i].cycleAt) != UtcDate(asOf) {
        continue;
      }
      if sorted[i].cycleAt <= asOf {
        return ContractsFor(sorted[i].chains, symbol);
      }
    }
    return [];
  }

  /** contract_at_or_before, scanning backwards. */
  method ContractAtOrBefore(sorted: seq<Snapshot>, occSymbol: Symbol, asOf: int) returns (contract: Option<Contract>)
    ensures contract == ContractAt(sorted, occSymbol, asOf)
  {
    var i := |sorted|;
    assert sorted[..i] == sorted;
    while i > 0
      invariant 0 <= i <= |sorted|
      invariant ContractAt(sorted[..i], occSymbol, asOf) == ContractAt(sorted, occSymbol, asOf)
    {
      i := i - 1;
      assert sorted[..i + 1][..i] == sorted[..i];
      if UtcDate(sorted[i].cycleAt) != UtcDate(asOf) || sorted[i].cycleAt > asOf {
        continue;
      }
      contract := FindContract(sorted[i].chains, occSymbol);
      if contract.Some? {
        return;
      }
    }
    return None;
  }

  // ---------------------------------------------------------------- no look-ahead

  /** The part of a ledger that was on record at time T. */
  function KnownAt(sorted: seq<Snapshot>, T: int): seq<Snapshot> {
    if sorted == [] then []
    else
      var rest := KnownAt(sorted[..|sorted| - 1], T);
      if sorted[|sorted| - 1].cycleAt <= T then rest + [sorted[|sorted| - 1]] else rest
  }

  /** A lookup as of T or earlier never depends on a snapshot taken after T. */
  lemma {:induction false} LookupsIgnoreTheFuture(sorted: seq<Snapshot>, occSymbol: Symbol, asOf: int, T: int)
    requires asOf <= T
    ensures LastVisible(sorted, asOf) == LastVisible(KnownAt(sorted, T), asOf)
    ensures ContractAt(sorted, occSymbol, asOf) == ContractAt(KnownAt(sorted, T), occSymbol, asOf)
  {
    if sorted != [] {
      var rest, last := KnownAt(sorted[..|sorted| - 1], T), sorted[|sorted| - 1];
      LookupsIgnoreTheFuture(sorted[..|sorted| - 1], occSymbol, asOf, T);
      assert (rest + [last])[..|rest|] == rest;
    }
  }

  // ---------------------------------------------------------------- lookups without sorting

  /** The latest visible snapshot of an unsorted list; of several with the latest time, the last recorded. */
  function LatestRecorded(snapshots: seq<Snapshot>, asOf: int): (r: Option<Snapshot>)
    ensures r.Some? ==> r.value in snapshots && Visible(r.value, asOf)
    ensures forall s :: s in snapshots && Visible(s, asOf) ==> r.Some? && s.cycleAt <= r.value.cycleAt
  {
    if snapshots == [] then None
    else
      var n := |snapshots| - 1;
      var best := LatestRecorded(snapshots[..n], asOf);
      assert snapshots == snapshots[..n] + [snapshots[n]];
      if Visible(snapshots[n], asOf) && (best.None? || best.value.cycleAt <= snapshots[n].cycleAt)
      then Some(snapshots[n]) else best
  }

  /** The same, but of several with the latest time the first recorded. */
  function FirstOfLatest(snapshots: seq<Snapshot>, asOf: int): (r: Option<Snapshot>)
    ensures r.Some? ==> r.value in snapshots && Visible(r.value, asOf)
    ensures forall s :: s in snapshots && Visible(s, asOf) ==> r.Some? && s.cycleAt <= r.value.cycleAt
  {
    if snapshots == [] then None
    else
      var n := |snapshots| - 1;
      var best := FirstOfLatest(snapshots[..n], asOf);
      assert snapshots == snapshots[..n] + [snapshots[n]];
      if Visible(snapshots[n], asOf) && (best.None? || best.value.cycleAt < snapshots[n].cycleAt)
      then Some(snapshots[n]) else best
  }

  lemma {:induction false} InsertScan(sorted: seq<Snapshot>, s: Snapshot, asOf: int)
    requires Sorted(sorted)
    ensures var best := LastVisible(sorted, asOf);
            LastVisible(InsertBy(sorted, s, Earlier), asOf)
            == if Visible(s, asOf) && (best.None? || best.value.cycleAt <= s.cycleAt) then Some(s) else best
  {
    if sorted == [] || sorted[|sorted| - 1].cycleAt <= s.cycleAt {
      assert (sorted + [s])[..|sorted|] == sorted;
      VisibleInSorted(sorted, asOf);
    } else {
      var n := |sorted| - 1;
      var rest := InsertBy(sorted[..n], s, Earlier);
      assert (rest + [sorted[n]])[..|rest|] == rest;
      InsertScan(sorted[..n], s, asOf);
    }
  }

  lemma {:induction false} VisibleInSorted(sorted: seq<Snapshot>, asOf: int)
    requires Sorted(sorted)
    ensures var best := LastVisible(sorted, asOf);
            best.Some? ==> best.value.cycleAt <= sorted[|sorted| - 1].cycleAt
  {
    if sorted != [] && !Visible(sorted[|sorted| - 1], asOf) {
      VisibleInSorted(sorted[..|sorted| - 1], asOf);
    }
  }

  /** Sorting and scanning backwards finds the latest visible snapshot, last recorded first. */
  lemma {:induction false} ScanFindsLatest(snapshots: seq<Snapshot>, asOf: int)
    ensures LastVisible(SortByTime(snapshots), asOf) == LatestRecorded(snapshots, asOf)
  {
    if snapshots != [] {
      var n := |snapshots| - 1;
      ScanFindsLatest(snapshots[..n], asOf);
      InsertScan(SortByTime(snapshots[..n]), snapshots[n], asOf);
    }
  }
}
