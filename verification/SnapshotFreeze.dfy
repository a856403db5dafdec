/** Freezing a snapshot archive to its replay boundaries (replay/option_snapshots.py). */
module SnapshotFreeze {
  import opened Domain
  import opened OptionLedger
  import opened Sorting

  /** A line of an archive file: blank, cut off mid-write, not a snapshot, or one snapshot. */
  datatype Line = Blank | Torn | Malformed | Record(snapshot: Snapshot)

  /** The archive file of one UTC day. */
  datatype DayFile = DayFile(day: int, lines: seq<Line>)

  type Directory = map<int, seq<Line>>

  /** The snapshots on record in a file. */
  function RecordsOf(lines: seq<Line>): (records: seq<Snapshot>)
    ensures forall s :: s in records <==> Record(s) in lines
  {
    if lines == [] then []
    else
      var n := |lines| - 1;
      var rest := RecordsOf(lines[..n]);
      assert lines == lines[..n] + [lines[n]];
      if lines[n].Record? then rest + [lines[n].snapshot] else rest
  }

  /** Every line can be read and belongs to the file's day; only then does the archive load. */
  predicate Clean(f: DayFile) {
    forall i :: 0 <= i < |f.lines| ==>
      f.lines[i].Blank? || (f.lines[i].Record? && UtcDate(f.lines[i].snapshot.cycleAt) == f.day)
  }

  // ---------------------------------------------------------------- freezing one file

  datatype Kept = Kept(boundary: int, snapshot: Snapshot)

  /** The first replay boundary at or after an instant, counted in intervals. */
  function Boundary(t: int, interval: int): int
    requires interval > 0
  {
    (t + interval - 1) / interval
  }

  lemma {:induction false} BoundaryBounds(t: int, interval: int, m: int)
    requires interval > 0
    ensures Boundary(t, interval) <= m <==> t <= m * interval
  {
    var q := (t + interval - 1) / interval;
    assert (t + interval - 1) == q * interval + (t + interval - 1) % interval;
    assert q * interval >= t && (q - 1) * interval < t;
    if q <= m {
      Scale(q, m, interval);
    } else {
      Scale(m, q - 1, interval);
    }
  }

  lemma {:induction false} Scale(a: int, b: int, k: int)
    requires a <= b && k > 0
    ensures a * k <= b * k
  {
    assert (b - a) * k >= 0;
  }

  /** Keep a snapshot for its boundary unless one at least as late is kept already. */
  function Put(kept: seq<Kept>, boundary: int, s: Snapshot): seq<Kept> {
    if kept == [] then [Kept(boundary, s)]
    else if kept[0].boundary == boundary then
      if s.cycleAt > kept[0].snapshot.cycleAt then [Kept(boundary, s)] + kept[1..] else kept
    else [kept[0]] + Put(kept[1..], boundary, s)
  }

  function Retain(records: seq<Snapshot>, interval: int): seq<Kept>
    requires interval > 0
  {
    if records == [] then []
    else
      var n := |records| - 1;
      Put(Retain(records[..n], interval), Boundary(records[n].cycleAt, interval), records[n])
  }

  function Snapshots(kept: seq<Kept>): (r: seq<Snapshot>)
    ensures |r| == |kept| && forall i :: 0 <= i < |r| ==> r[i] == kept[i].snapshot
  {
    seq(|kept|, i requires 0 <= i < |kept| => kept[i].snapshot)
  }

  function ChainCount(chains: seq<Chain>): nat {
    if chains == [] then 0 else |chains[0].contracts| + ChainCount(chains[1..])
  }

  function ContractCount(snapshots: seq<Snapshot>): nat {
    if snapshots == [] then 0 else ChainCount(snapshots[0].chains) + ContractCount(snapshots[1..])
  }

  /** The lines of a frozen file. */
  function Written(snapshots: seq<Snapshot>): (lines: seq<Line>)
    ensures |lines| == |snapshots| && forall i :: 0 <= i < |lines| ==> lines[i] == Record(snapshots[i])
  {
    seq(|snapshots|, i requires 0 <= i < |snapshots| => Record(snapshots[i]))
  }

  /** What is retained of a file, in time order. */
  function Ordered(records: seq<Snapshot>, interval: int): seq<Snapshot>
    requires interval > 0
  {
    SortByTime(Snapshots(Retain(records, interval)))
  }

  /** The readable lines: reading stops at the first torn one. */
  function Readable(lines: seq<Line>): (prefix: seq<Line>)
    ensures prefix <= lines
  {
    if lines == [] then []
    else
      var prefix := Readable(lines[..|lines| - 1]);
      if |prefix| == |lines| - 1 && !lines[|lines| - 1].Torn? then lines else prefix
  }

  predicate Rejected(f: DayFile) {
    exists i :: 0 <= i < |Readable(f.lines)| &&
      (f.lines[i].Malformed? || (f.lines[i].Record? && UtcDate(f.lines[i].snapshot.cycleAt) != f.day))
  }

  /** The frozen form of a file: a failure, nothing to keep, or the retained snapshots. */
  function FreezeFile(f: DayFile, interval: int): Result<Option<seq<Line>>>
    requires interval > 0
  {
    if Rejected(f) then Failure
    else
      var ordered := Ordered(RecordsOf(Readable(f.lines)), interval);
      Success(if ContractCount(ordered) == 0 then None else Some(Written(ordered)))
  }

  // ---------------------------------------------------------------- what is retained

  function Get(kept: seq<Kept>, boundary: int): Option<Snapshot> {
    if kept == [] then None
    else if kept[0].boundary == boundary then Some(kept[0].snapshot)
    else Get(kept[1..], boundary)
  }

  /** Put changes the entry of one boundary and nothing else. */
  lemma {:induction false} PutGet(kept: seq<Kept>, boundary: int, s: Snapshot, b: int)
    ensures Get(Put(kept, boundary, s), b)
         == if b != boundary then Get(kept, b)
            else if Get(kept, b).None? || s.cycleAt > Get(kept, b).value.cycleAt then Some(s)
            else Get(kept, b)
  {
    if kept != [] && kept[0].boundary != boundary {
      PutGet(kept[1..], boundary, s, b);
      assert ([kept[0]] + Put(kept[1..], boundary, s))[1..] == Put(kept[1..], boundary, s);
    } else if kept != [] {
      assert ([Kept(boundary, s)] + kept[1..])[1..] == kept[1..];
    }
  }

  /** Each boundary has one entry, and it is the one that Get finds. */
  ghost predicate Keyed(kept: seq<Kept>, interval: int)
    requires interval > 0
  {
    && (forall i, j :: 0 <= i < j < |kept| ==> kept[i].boundary != kept[j].boundary)
    && (forall i :: 0 <= i < |kept| ==> kept[i].boundary == Boundary(kept[i].snapshot.cycleAt, interval))
  }

  lemma {:induction false} GetMember(kept: seq<Kept>, b: int)
    ensures Get(kept, b).Some? ==> Get(kept, b).value in Snapshots(kept) && Kept(b, Get(kept, b).value) in kept
  {
    if kept != [] && kept[0].boundary != b {
      GetMember(kept[1..], b);
      var tail := Snapshots(kept[1..]);
      assert forall i :: 0 <= i < |tail| ==> tail[i] == Snapshots(kept)[i + 1];
    } else if kept != [] {
      assert Snapshots(kept)[0] == kept[0].snapshot;
    }
  }

  lemma {:induction false} PutKeyed(kept: seq<Kept>, interval: int, s: Snapshot)
    requires interval > 0 && Keyed(kept, interval)
    ensures var r := Put(kept, Boundary(s.cycleAt, interval), s);
            Keyed(r, interval) && forall k: Kept :: k in r ==> k in kept || k == Kept(Boundary(s.cycleAt, interval), s)
  {
    var boundary := Boundary(s.cycleAt, interval);
    if kept != [] && kept[0].boundary != boundary {
      PutKeyed(kept[1..], interval, s);
      var rest := Put(kept[1..], boundary, s);
      forall j | 0 <= j < |rest| ensures rest[j].boundary != kept[0].boundary {
        assert rest[j] in rest;
      }
    }
  }

  lemma {:induction false} RetainKeyed(records: seq<Snapshot>, interval: int)
    requires interval > 0
    ensures Keyed(Retain(records, interval), interval)
    ensures forall k: Kept :: k in Retain(records, interval) ==> k.snapshot in records
  {
    if records != [] {
      var n := |records| - 1;
      RetainKeyed(records[..n], interval);
      PutKeyed(Retain(records[..n], interval), interval, records[n]);
    }
  }

  ghost predicate SameDay(records: seq<Snapshot>, day: int) {
    forall s :: s in records ==> UtcDate(s.cycleAt) == day
  }

  /** `best` is the latest of the entries kept for boundaries up to m. */
  ghost predicate LatestUpTo(kept: seq<Kept>, m: int, best: Option<Snapshot>, interval: int)
    requires interval > 0
  {
    && (best.Some? ==> Boundary(best.value.cycleAt, interval) <= m
                       && Get(kept, Boundary(best.value.cycleAt, interval)) == best)
    && (forall b :: b <= m && Get(kept, b).Some? ==> best.Some? && Get(kept, b).value.cycleAt <= best.value.cycleAt)
  }

  /** At every boundary, the snapshot kept is the first recorded of the latest visible ones. */
  lemma {:induction false} RetainFindsLatest(records: seq<Snapshot>, interval: int, m: int, day: int)
    requires interval > 0 && SameDay(records, day) && UtcDate(m * interval) == day
    ensures LatestUpTo(Retain(records, interval), m, FirstOfLatest(records, m * interval), interval)
  {
    if records != [] {
      var n := |records| - 1;
      var s, kept := records[n], Retain(records[..n], interval);
      assert forall x :: x in records[..n] ==> x in records;
      assert s in records;
      RetainFindsLatest(records[..n], interval, m, day);
      BoundaryBounds(s.cycleAt, interval, m);
      var boundary := Boundary(s.cycleAt, interval);
      forall b ensures Get(Put(kept, boundary, s), b)
         == if b != boundary then Get(kept, b)
            else if Get(kept, b).None? || s.cycleAt > Get(kept, b).value.cycleAt then Some(s)
            else Get(kept, b)
      {
        PutGet(kept, boundary, s, b);
      }
    }
  }

  // ---------------------------------------------------------------- one file, before and after

  ghost predicate StampsDistinct(records: seq<Snapshot>) {
    forall i, j :: 0 <= i < j < |records| ==> records[i].cycleAt != records[j].cycleAt
  }

  /** In a list without equal stamps, a visible snapshot that no visible one postdates is the latest. */
  lemma {:induction false} LatestIsUnique(records: seq<Snapshot>, asOf: int, s: Snapshot)
    requires s in records && Visible(s, asOf)
    requires forall x :: x in records && Visible(x, asOf) ==> x.cycleAt <= s.cycleAt
    requires StampsDistinct(records)
    ensures LatestRecorded(records, asOf) == Some(s) && FirstOfLatest(records, asOf) == Some(s)
  {
    var i :| 0 <= i < |records| && records[i] == s;
    var a, b := LatestRecorded(records, asOf), FirstOfLatest(records, asOf);
    var j :| 0 <= j < |records| && records[j] == a.value;
    var k :| 0 <= k < |records| && records[k] == b.value;
  }

  ghost predicate BoundariesDistinct(records: seq<Snapshot>, interval: int)
    requires interval > 0
  {
    forall i, j :: 0 <= i < j < |records| ==>
      Boundary(records[i].cycleAt, interval) != Boundary(records[j].cycleAt, interval)
  }

  /** The retained snapshots have different boundaries, hence different stamps, and all come from the file. */
  lemma {:induction false} OrderedDistinct(records: seq<Snapshot>, interval: int)
    requires interval > 0
    ensures BoundariesDistinct(Ordered(records, interval), interval)
    ensures StampsDistinct(Ordered(records, interval))
    ensures forall s :: s in Ordered(records, interval) ==> s in records
  {
    var kept := Retain(records, interval);
    RetainKeyed(records, interval);
    var values := Snapshots(kept);
    forall i, j | 0 <= i < j < |values|
      ensures Boundary(values[i].cycleAt, interval) != Boundary(values[j].cycleAt, interval)
    {
      assert kept[i].boundary != kept[j].boundary;
    }
    SortDistinct(values, interval);
    var ordered := Ordered(records, interval);
    forall i, j | 0 <= i < j < |ordered| ensures ordered[i].cycleAt != ordered[j].cycleAt {
      assert Boundary(ordered[i].cycleAt, interval) != Boundary(ordered[j].cycleAt, interval);
    }
    forall s | s in Ordered(records, interval) ensures s in records {
      assert s in values;
      var i :| 0 <= i < |values| && values[i] == s;
      assert kept[i] in kept;
    }
  }

  lemma {:induction false} SortDistinct(snapshots: seq<Snapshot>, interval: int)
    requires interval > 0 && BoundariesDistinct(snapshots, interval)
    ensures BoundariesDistinct(SortByTime(snapshots), interval)
  {
    if snapshots != [] {
      var n := |snapshots| - 1;
      SortDistinct(snapshots[..n], interval);
      var sorted := SortByTime(snapshots[..n]);
      forall x | x in sorted ensures Boundary(x.cycleAt, interval) != Boundary(snapshots[n].cycleAt, interval) {
        assert x in snapshots[..n];
      }
      InsertDistinct(sorted, snapshots[n], interval);
    }
  }

  lemma {:induction false} InsertDistinct(sorted: seq<Snapshot>, s: Snapshot, interval: int)
    requires interval > 0 && BoundariesDistinct(sorted, interval)
    requires forall x :: x in sorted ==> Boundary(x.cycleAt, interval) != Boundary(s.cycleAt, interval)
    ensures BoundariesDistinct(InsertBy(sorted, s, Earlier), interval)
  {
    hide Boundary;
    if !(sorted == [] || sorted[|sorted| - 1].cycleAt <= s.cycleAt) {
      var n := |sorted| - 1;
      InsertDistinct(sorted[..n], s, interval);
      var rest := InsertBy(sorted[..n], s, Earlier);
      forall i | 0 <= i < |rest| ensures Boundary(rest[i].cycleAt, interval) != Boundary(sorted[n].cycleAt, interval) {
        assert rest[i] in rest;
      }
    } else {
      forall i | 0 <= i < |sorted| ensures Boundary(sorted[i].cycleAt, interval) != Boundary(s.cycleAt, interval) {
        assert sorted[i] in sorted;
      }
    }
  }

  /** At a boundary, the retained snapshots answer with the first recorded of the latest original ones. */
  lemma {:induction false} OrderedAnswers(records: seq<Snapshot>, interval: int, m: int, day: int)
    requires interval > 0 && SameDay(records, day) && UtcDate(m * interval) == day
    ensures LatestRecorded(Ordered(records, interval), m * interval) == FirstOfLatest(records, m * interval)
  {
    var asOf, kept, ordered := m * interval, Retain(records, interval), Ordered(records, interval);
    var best := FirstOfLatest(records, asOf);
    RetainFindsLatest(records, interval, m, day);
    RetainKeyed(records, interval);
    OrderedDistinct(records, interval);
    if best.Some? {
      GetMember(kept, Boundary(best.value.cycleAt, interval));
      assert best.value in Snapshots(kept);
      assert best.value in ordered;
      LatestIsUnique(ordered, asOf, best.value);
    }
  }

  /** Nothing retained quotes a contract: then no boundary lookup ever did. */
  lemma {:induction false} NoContracts(snapshots: seq<Snapshot>, s: Snapshot, symbol: Symbol)
    requires ContractCount(snapshots) == 0 && s in snapshots
    ensures ContractsFor(s.chains, symbol) == []
  {
    if snapshots[0] == s {
      NoChains(s.chains, symbol);
    } else {
      NoContracts(snapshots[1..], s, symbol);
    }
  }

  lemma {:induction false} NoChains(chains: seq<Chain>, symbol: Symbol)
    requires ChainCount(chains) == 0
    ensures ContractsFor(chains, symbol) == []
  {
    if chains != [] && chains[0].symbol != symbol {
      NoChains(chains[1..], symbol);
    }
  }

  // ---------------------------------------------------------------- freezing an archive

  function NonEmpty(source: seq<DayFile>): (files: seq<DayFile>)
    ensures forall f :: f in files <==> f in source && f.lines != []
  {
    if source == [] then []
    else
      var n := |source| - 1;
      var rest := NonEmpty(source[..n]);
      assert source == source[..n] + [source[n]];
      if source[n].lines != [] then rest + [source[n]] else rest
  }

  /** The destination after the given files have been written into it; a file with nothing to keep is skipped. */
  function FreezeAll(files: seq<DayFile>, destination: Directory, interval: int): Result<Directory>
    requires interval > 0
  {
    if files == [] then Success(destination)
    else
      var n := |files| - 1;
      match FreezeAll(files[..n], destination, interval)
      case Failure => Failure
      case Success(d) =>
        match FreezeFile(files[n], interval)
        case Failure => Failure
        case Success(None) => Success(d)
        case Success(Some(lines)) => Success(d[files[n].day := lines])
  }

  /** Stale destination files are removed, except those whose name a source file also has. */
  function Expected(destination: Directory, files: seq<DayFile>): Directory {
    map day | day in destination && (exists f :: f in files && f.day == day) :: destination[day]
  }

  predicate Keeps(f: DayFile, interval: int)
    requires interval > 0
  {
    FreezeFile(f, interval).Success? && FreezeFile(f, interval).value.Some?
  }

  function Freeze(source: seq<DayFile>, destination: Directory, interval: int): Result<Directory> {
    if interval <= 0 then Failure
    else
      var files := NonEmpty(source);
      if files == [] then Failure
      else if FreezeAll(files, Expected(destination, files), interval).Failure? then Failure
      else if !exists f :: f in files && Keeps(f, interval) then Failure
      else FreezeAll(files, Expected(destination, files), interval)
  }

  ghost predicate Archive(files: seq<DayFile>) {
    && (forall i, j :: 0 <= i < j < |files| ==> files[i].day != files[j].day)
    && (forall f :: f in files ==> Clean(f))
  }

  /** What the frozen directory holds for one day. */
  function FrozenDay(f: DayFile, before: Directory, interval: int): Option<seq<Line>>
    requires interval > 0
  {
    if Keeps(f, interval) then FreezeFile(f, interval).value
    else if f.day in before then Some(before[f.day])
    else None
  }

  function DayOf(d: Directory, day: int): Option<seq<Line>> {
    if day in d then Some(d[day]) else None
  }

  lemma {:induction false} FreezeAllDay(files: seq<DayFile>, before: Directory, interval: int, day: int)
    requires interval > 0 && FreezeAll(files, before, interval).Success?
    requires forall i, j :: 0 <= i < j < |files| ==> files[i].day != files[j].day
    ensures var out := FreezeAll(files, before, interval).value;
            && (forall f :: f in files && f.day == day ==> DayOf(out, day) == FrozenDay(f, before, interval))
            && ((forall f :: f in files ==> f.day != day) ==> DayOf(out, day) == DayOf(before, day))
  {
    hide FreezeFile;
    if files != [] {
      var n := |files| - 1;
      FreezeAllDay(files[..n], before, interval, day);
      assert files == files[..n] + [files[n]];
      if files[n].day == day {
        assert forall f :: f in files[..n] ==> f.day != day;
      }
    }
  }

  lemma {:induction false} CleanReadable(f: DayFile)
    requires Clean(f)
    ensures Readable(f.lines) == f.lines && !Rejected(f)
  {
    ReadableUpTo(f.lines, |f.lines|);
    assert f.lines[..|f.lines|] == f.lines;
  }

  lemma {:induction false} ReadableUpTo(lines: seq<Line>, i: nat)
    requires i <= |lines| && forall j :: 0 <= j < i ==> !lines[j].Torn?
    ensures lines[..i] <= Readable(lines)
    ensures i == |lines| || lines[i].Torn? ==> Readable(lines) == lines[..i]
    decreases |lines|
  {
    if lines != [] {
      var n := |lines| - 1;
      if i <= n {
        ReadableUpTo(lines[..n], i);
        assert lines[..n][..i] == lines[..i];
      } else {
        ReadableUpTo(lines[..n], n);
        assert lines[..n][..n] == lines[..n];
        assert lines[..i] == lines;
      }
    }
  }

  // ---------------------------------------------------------------- what lookups see

  /** All snapshots of an archive, in the order in which the files are loaded. */
  function AllRecords(files: seq<DayFile>): seq<Snapshot> {
    if files == [] then [] else AllRecords(files[..|files| - 1]) + RecordsOf(files[|files| - 1].lines)
  }

  /** A lookup in the ledger loaded from the files. */
  function Answer(files: seq<DayFile>, symbol: Symbol, asOf: int): seq<Contract> {
    ChainOf(LastVisible(SortByTime(AllRecords(files)), asOf), symbol)
  }

  /** A lookup that only opens the file of the day. */
  function AnswerOfDay(lines: Option<seq<Line>>, symbol: Symbol, asOf: int): seq<Contract> {
    if lines.None? then [] else ChainOf(LatestRecorded(RecordsOf(lines.value), asOf), symbol)
  }

  lemma {:induction false} LatestStep(records: seq<Snapshot>, s: Snapshot, asOf: int)
    ensures var best := LatestRecorded(records, asOf);
            LatestRecorded(records + [s], asOf)
            == if Visible(s, asOf) && (best.None? || best.value.cycleAt <= s.cycleAt) then Some(s) else best
  {
    assert (records + [s])[..|records|] == records;
  }

  lemma {:induction false} LatestOfFront(a: seq<Snapshot>, b: seq<Snapshot>, asOf: int)
    requires forall s :: s in b ==> !Visible(s, asOf)
    ensures LatestRecorded(a + b, asOf) == LatestRecorded(a, asOf)
    decreases |b|
  {
    if b == [] {
      assert a + b == a;
    } else {
      var n := |b| - 1;
      LatestOfFront(a, b[..n], asOf);
      LatestStep(a + b[..n], b[n], asOf);
      assert b[n] in b;
      assert a + b == a + b[..n] + [b[n]];
    }
  }

  lemma {:induction false} LatestOfBack(a: seq<Snapshot>, b: seq<Snapshot>, asOf: int)
    requires forall s :: s in a ==> !Visible(s, asOf)
    ensures LatestRecorded(a + b, asOf) == LatestRecorded(b, asOf)
    decreases |b|
  {
    hide LatestRecorded;
    if b == [] {
      assert a + b == a;
    } else {
      var n := |b| - 1;
      LatestOfBack(a, b[..n], asOf);
      LatestStep(a + b[..n], b[n], asOf);
      LatestStep(b[..n], b[n], asOf);
      assert a + b == a + b[..n] + [b[n]] && b == b[..n] + [b[n]];
    }
  }

  lemma {:induction false} NotVisibleElsewhere(f: DayFile, asOf: int)
    requires Clean(f) && f.day != UtcDate(asOf)
    ensures forall s :: s in RecordsOf(f.lines) ==> !Visible(s, asOf)
  {
  }

  /** Only the file of the looked-up day matters. */
  lemma {:induction false} AllRecordsOfDay(files: seq<DayFile>, asOf: int)
    requires Archive(files)
    ensures forall f :: f in files && f.day == UtcDate(asOf) ==>
              LatestRecorded(AllRecords(files), asOf) == LatestRecorded(RecordsOf(f.lines), asOf)
    ensures (forall f :: f in files ==> f.day != UtcDate(asOf)) ==>
              forall s :: s in AllRecords(files) ==> !Visible(s, asOf)
  {
    if files != [] {
      var n := |files| - 1;
      var last := files[n];
      assert files == files[..n] + [last];
      AllRecordsOfDay(files[..n], asOf);
      if last.day != UtcDate(asOf) {
        NotVisibleElsewhere(last, asOf);
        LatestOfFront(AllRecords(files[..n]), RecordsOf(last.lines), asOf);
      } else {
        assert forall f :: f in files[..n] ==> f.day != UtcDate(asOf);
        LatestOfBack(AllRecords(files[..n]), RecordsOf(last.lines), asOf);
      }
    }
  }

  function FileOf(files: seq<DayFile>, day: int): (lines: Option<seq<Line>>)
    ensures lines.Some? ==> DayFile(day, lines.value) in files
    ensures lines.None? ==> forall f :: f in files ==> f.day != day
  {
    if files == [] then None
    else if files[0].day == day then Some(files[0].lines)
    else
      assert files == [files[0]] + files[1..];
      FileOf(files[1..], day)
  }

  lemma {:induction false} AnswerIsLocal(files: seq<DayFile>, symbol: Symbol, asOf: int)
    requires Archive(files)
    ensures Answer(files, symbol, asOf) == AnswerOfDay(FileOf(files, UtcDate(asOf)), symbol, asOf)
  {
    ScanFindsLatest(AllRecords(files), asOf);
    AllRecordsOfDay(files, asOf);
  }

  // ---------------------------------------------------------------- freezing preserves meaning

  /** The files are a listing of the directory. */
  ghost predicate Lists(files: seq<DayFile>, dir: Directory) {
    && (forall i, j :: 0 <= i < j < |files| ==> files[i].day != files[j].day)
    && (forall f :: f in files ==> f.day in dir && dir[f.day] == f.lines)
    && (forall day :: day in dir ==> DayFile(day, dir[day]) in files)
  }

  lemma {:induction false} ListedFile(files: seq<DayFile>, dir: Directory, day: int)
    requires Lists(files, dir)
    ensures FileOf(files, day) == DayOf(dir, day)
  {
    if day in dir {
      assert DayFile(day, dir[day]) in files;
    }
  }

  lemma {:induction false} RecordsOfWritten(snapshots: seq<Snapshot>)
    ensures RecordsOf(Written(snapshots)) == snapshots
  {
    if snapshots != [] {
      var n := |snapshots| - 1;
      RecordsOfWritten(snapshots[..n]);
      assert Written(snapshots)[..n] == Written(snapshots[..n]);
    }
  }

  predicate AtBoundary(asOf: int, interval: int) {
    interval > 0 && asOf % interval == 0
  }

  /** The answer of the first recorded of the latest snapshots. */
  function FirstAnswer(lines: Option<seq<Line>>, symbol: Symbol, asOf: int): seq<Contract> {
    if lines.None? then [] else ChainOf(FirstOfLatest(RecordsOf(lines.value), asOf), symbol)
  }

  /** A session that keeps nothing although the destination holds an older file of its name. */
  predicate LeftOver(f: DayFile, destination: Directory, interval: int)
    requires interval > 0
  {
    f.lines != [] && !Keeps(f, interval) && f.day in destination
  }

  /** The frozen file of a day answers boundary lookups with the first recorded of the latest snapshots. */
  lemma {:induction false} FrozenFileAnswers(f: DayFile, interval: int, symbol: Symbol, asOf: int)
    requires AtBoundary(asOf, interval) && Clean(f) && f.day == UtcDate(asOf)
    ensures FreezeFile(f, interval).Success?
    ensures AnswerOfDay(FreezeFile(f, interval).value, symbol, asOf) == FirstAnswer(Some(f.lines), symbol, asOf)
  {
    var records := RecordsOf(f.lines);
    CleanReadable(f);
    assert asOf == asOf / interval * interval;
    OrderedAnswers(records, interval, asOf / interval, f.day);
    var ordered := Ordered(records, interval);
    var best := FirstOfLatest(records, asOf);
    if ContractCount(ordered) == 0 {
      if best.Some? {
        NoContracts(ordered, best.value, symbol);
      }
    } else {
      RecordsOfWritten(ordered);
    }
  }

  /** The frozen directory, day by day. */
  lemma {:induction false} FreezeDay(source: seq<DayFile>, destination: Directory, interval: int, day: int)
    requires Archive(source) && Freeze(source, destination, interval).Success?
    ensures var f, out := FileOf(source, day), Freeze(source, destination, interval).value;
            DayOf(out, day)
            == if f.None? || f.value == [] then None else FrozenDay(DayFile(day, f.value), destination, interval)
  {
    hide FreezeFile;
    var files := NonEmpty(source);
    NonEmptyArchive(source);
    FreezeAllDay(files, Expected(destination, files), interval, day);
    var f := FileOf(source, day);
    if f.Some? && f.value != [] {
      assert DayFile(day, f.value) in files;
    } else {
      forall g | g in files ensures g.day != day {
        if g.day == day {
          SameFile(source, DayFile(day, f.value), g);
        }
      }
    }
  }

  lemma {:induction false} SameFile(files: seq<DayFile>, f: DayFile, g: DayFile)
    requires Archive(files) && f in files && g in files && f.day == g.day
    ensures f == g
  {
    var i :| 0 <= i < |files| && files[i] == f;
    var j :| 0 <= j < |files| && files[j] == g;
  }

  lemma {:induction false} ArchiveFront(files: seq<DayFile>)
    requires Archive(files) && files != []
    ensures var n := |files| - 1;
            Archive(files[..n]) && Clean(files[n]) && forall g :: g in files[..n] ==> g.day != files[n].day
  {
    hide Clean;
    var n := |files| - 1;
    assert forall g :: g in files[..n] ==> g in files;
  }

  lemma {:induction false} ArchiveAppend(files: seq<DayFile>, f: DayFile)
    requires Archive(files) && Clean(f) && forall g :: g in files ==> g.day != f.day
    ensures Archive(files + [f])
  {
    hide Clean;
    forall i | 0 <= i < |files| ensures files[i].day != f.day {
      assert files[i] in files;
    }
  }

  lemma {:induction false} EmptyArchive()
    ensures Archive([])
  {
  }

  lemma {:induction false} NonEmptyArchive(source: seq<DayFile>)
    requires Archive(source)
    ensures Archive(NonEmpty(source))
  {
    hide Archive, Clean;
    EmptyArchive();
    if source != [] {
      var n := |source| - 1;
      ArchiveFront(source);
      NonEmptyArchive(source[..n]);
      ArchiveAppend(NonEmpty(source[..n]), source[n]);
    }
  }

  /** Without left-over files, the frozen ledger answers with the first recorded of the latest snapshots. */
  lemma {:induction false} FrozenAnswers(
    source: seq<DayFile>, destination: Directory, interval: int, frozen: seq<DayFile>, symbol: Symbol, asOf: int)
    requires Archive(source) && Archive(frozen) && AtBoundary(asOf, interval)
    requires Freeze(source, destination, interval).Success? &&
      Lists(frozen, Freeze(source, destination, interval).value)
    ensures (forall f :: f in source && f.day == UtcDate(asOf) ==> !LeftOver(f, destination, interval)) ==>
              Answer(frozen, symbol, asOf) == FirstAnswer(FileOf(source, UtcDate(asOf)), symbol, asOf)
    ensures forall f :: f in source && f.day == UtcDate(asOf) && LeftOver(f, destination, interval) ==>
              && Answer(frozen, symbol, asOf) == AnswerOfDay(Some(destination[f.day]), symbol, asOf)
              && FirstAnswer(FileOf(source, UtcDate(asOf)), symbol, asOf) == []
  {
    hide FreezeFile, Freeze;
    var day := UtcDate(asOf);
    AnswerIsLocal(frozen, symbol, asOf);
    ListedFile(frozen, Freeze(source, destination, interval).value, day);
    FreezeDay(source, destination, interval, day);
    var lines := FileOf(source, day);
    if lines.Some? {
      var f := DayFile(day, lines.value);
      FrozenFileAnswers(f, interval, symbol, asOf);
      forall g | g in source && g.day == day ensures g == f {
        SameFile(source, f, g);
      }
    }
  }

  ghost predicate Preserved(source: seq<DayFile>, frozen: seq<DayFile>, interval: int) {
    forall symbol, asOf :: AtBoundary(asOf, interval) ==> Answer(frozen, symbol, asOf) == Answer(source, symbol, asOf)
  }

  /**
   * Records i and j are the first and the last with some stamp, no later record has the same boundary, and
   * that boundary falls on the file's own day.
   */
  ghost predicate LatestTie(records: seq<Snapshot>, i: int, j: int, day: int, interval: int)
    requires interval > 0
  {
    0 <= i <= j < |records| && records[i].cycleAt == records[j].cycleAt &&
    (forall k :: 0 <= k < |records| && records[k].cycleAt == records[i].cycleAt ==> i <= k <= j) &&
    (forall k :: 0 <= k < |records| && records[k].cycleAt > records[i].cycleAt ==>
       Boundary(records[k].cycleAt, interval) != Boundary(records[i].cycleAt, interval)) &&
    UtcDate(Boundary(records[i].cycleAt, interval) * interval) == day
  }

  ghost predicate QuoteAlike(records: seq<Snapshot>, i: int, j: int) {
    0 <= i < |records| && 0 <= j < |records| &&
    forall symbol :: ContractsFor(records[i].chains, symbol) == ContractsFor(records[j].chains, symbol)
  }

  /** The first and the last of several records with the latest stamp of a boundary quote the same. */
  ghost predicate TiesAgree(f: DayFile, interval: int)
    requires interval > 0
  {
    forall i, j :: LatestTie(RecordsOf(f.lines), i, j, f.day, interval) ==> QuoteAlike(RecordsOf(f.lines), i, j)
  }

  lemma {:induction false} FirstIndex(records: seq<Snapshot>, asOf: int) returns (i: nat)
    requires SameDay(records, UtcDate(asOf)) && FirstOfLatest(records, asOf).Some?
    ensures i < |records| && FirstOfLatest(records, asOf).value == records[i]
    ensures forall k :: 0 <= k < |records| && records[k].cycleAt == records[i].cycleAt ==> i <= k
  {
    var n := |records| - 1;
    assert records == records[..n] + [records[n]];
    var best := FirstOfLatest(records[..n], asOf);
    if Visible(records[n], asOf) && (best.None? || best.value.cycleAt < records[n].cycleAt) {
      i := n;
      forall k | 0 <= k < n ensures records[k].cycleAt != records[n].cycleAt {
        assert records[..n][k] in records[..n] && records[k] in records;
      }
    } else {
      i := FirstIndex(records[..n], asOf);
      forall k | 0 <= k < |records| && records[k].cycleAt == records[i].cycleAt ensures i <= k {
        if k < n {
          assert records[..n][k] == records[k];
        }
      }
    }
  }

  lemma {:induction false} LastIndex(records: seq<Snapshot>, asOf: int) returns (j: nat)
    requires SameDay(records, UtcDate(asOf)) && LatestRecorded(records, asOf).Some?
    ensures j < |records| && LatestRecorded(records, asOf).value == records[j]
    ensures forall k :: 0 <= k < |records| && records[k].cycleAt == records[j].cycleAt ==> k <= j
  {
    var n := |records| - 1;
    assert records == records[..n] + [records[n]];
    var best := LatestRecorded(records[..n], asOf);
    if Visible(records[n], asOf) && (best.None? || best.value.cycleAt <= records[n].cycleAt) {
      j := n;
    } else {
      j := LastIndex(records[..n], asOf);
      forall k | 0 <= k < |records| && records[k].cycleAt == records[j].cycleAt ensures k <= j {
        assert k < n ==> records[..n][k] == records[k];
        assert records[k] in records;
      }
    }
  }

  /** What a boundary lookup of a day sees is a tie of some boundary up to it. */
  lemma {:induction false} VisibleTie(records: seq<Snapshot>, asOf: int, interval: int) returns (i: nat, j: nat)
    requires AtBoundary(asOf, interval) && SameDay(records, UtcDate(asOf)) && LatestRecorded(records, asOf).Some?
    ensures LatestTie(records, i, j, UtcDate(asOf), interval)
    ensures FirstOfLatest(records, asOf) == Some(records[i]) && LatestRecorded(records, asOf) == Some(records[j])
  {
    hide Boundary, UtcDate;
    var m := asOf / interval;
    assert asOf == m * interval;
    assert LatestRecorded(records, asOf).value in records;
    i := FirstIndex(records, asOf);
    j := LastIndex(records, asOf);
    assert records[i] in records && records[j] in records;
    var t := records[i].cycleAt;
    forall k | 0 <= k < |records| && records[k].cycleAt > t
      ensures Boundary(records[k].cycleAt, interval) != Boundary(t, interval)
    {
      assert records[k] in records;
      BoundaryBounds(records[k].cycleAt, interval, m);
      BoundaryBounds(t, interval, m);
    }
    BoundaryBounds(t, interval, m);
    BoundaryBounds(t, interval, Boundary(t, interval));
    Scale(Boundary(t, interval), m, interval);
    DayBetween(t, Boundary(t, interval) * interval, asOf);
  }

  lemma {:induction false} DayBetween(a: int, b: int, c: int)
    requires a <= b <= c && UtcDate(a) == UtcDate(c)
    ensures UtcDate(b) == UtcDate(c)
  {
  }

  /** A tie is what the lookup at its own boundary sees. */
  lemma {:induction false} TieIsVisible(records: seq<Snapshot>, i: int, j: int, day: int, interval: int)
    requires interval > 0 && SameDay(records, day) && LatestTie(records, i, j, day, interval)
    ensures var asOf := Boundary(records[i].cycleAt, interval) * interval;
            AtBoundary(asOf, interval) && UtcDate(asOf) == day &&
            FirstOfLatest(records, asOf) == Some(records[i]) && LatestRecorded(records, asOf) == Some(records[j])
  {
    hide Boundary, UtcDate;
    var t := records[i].cycleAt;
    var b := Boundary(t, interval);
    var asOf := b * interval;
    assert asOf % interval == 0 by {
      Multiple(b, interval);
    }
    BoundaryBounds(t, interval, b);
    assert records[i] in records && Visible(records[i], asOf);
    var first := FirstIndex(records, asOf);
    var last := LastIndex(records, asOf);
    NoneLater(records, first, i, interval);
    NoneLater(records, last, i, interval);
    assert first == i && last == j;
  }

  lemma {:induction false} Multiple(b: int, interval: int)
    requires interval > 0
    ensures b * interval % interval == 0
  {
    var q, rest := b * interval / interval, b * interval % interval;
    assert (b - q) * interval == rest;
    if b > q {
      Scale(1, b - q, interval);
    } else if b < q {
      Scale(b - q, -1, interval);
    }
  }

  /** Nothing up to the boundary of the latest stamp is later than that stamp. */
  lemma {:induction false} NoneLater(records: seq<Snapshot>, k: nat, i: nat, interval: int)
    requires interval > 0 && k < |records| && i < |records|
    requires records[k].cycleAt > records[i].cycleAt ==>
               Boundary(records[k].cycleAt, interval) != Boundary(records[i].cycleAt, interval)
    requires records[k].cycleAt <= Boundary(records[i].cycleAt, interval) * interval
    ensures records[k].cycleAt <= records[i].cycleAt
  {
    hide Boundary;
    var b := Boundary(records[i].cycleAt, interval);
    BoundaryBounds(records[k].cycleAt, interval, b);
    BoundaryBounds(records[k].cycleAt, interval, b - 1);
    BoundaryBounds(records[i].cycleAt, interval, b - 1);
  }

  lemma {:induction false} CleanSameDay(f: DayFile)
    requires Clean(f)
    ensures SameDay(RecordsOf(f.lines), f.day)
  {
  }

  /** At every boundary of the day the first and the last recorded of the latest snapshots answer alike. */
  ghost predicate AnswersAgree(f: DayFile, interval: int) {
    forall symbol, asOf :: AtBoundary(asOf, interval) && UtcDate(asOf) == f.day ==>
      FirstAnswer(Some(f.lines), symbol, asOf) == AnswerOfDay(Some(f.lines), symbol, asOf)
  }

  lemma {:induction false} TiesGiveAnswers(f: DayFile, interval: int, symbol: Symbol, asOf: int)
    requires Clean(f) && AtBoundary(asOf, interval) && UtcDate(asOf) == f.day && TiesAgree(f, interval)
    ensures FirstAnswer(Some(f.lines), symbol, asOf) == AnswerOfDay(Some(f.lines), symbol, asOf)
  {
    hide Clean, LatestTie, UtcDate;
    CleanSameDay(f);
    if LatestRecorded(RecordsOf(f.lines), asOf).Some? {
      var i, j := VisibleTie(RecordsOf(f.lines), asOf, interval);
      assert QuoteAlike(RecordsOf(f.lines), i, j);
    }
  }

  lemma {:induction false} AnswersGiveTies(f: DayFile, interval: int, i: int, j: int)
    requires Clean(f) && interval > 0 && AnswersAgree(f, interval)
    requires LatestTie(RecordsOf(f.lines), i, j, f.day, interval)
    ensures QuoteAlike(RecordsOf(f.lines), i, j)
  {
    hide Clean, UtcDate, Boundary;
    CleanSameDay(f);
    var records := RecordsOf(f.lines);
    var asOf := Boundary(records[i].cycleAt, interval) * interval;
    TieIsVisible(records, i, j, f.day, interval);
    forall symbol ensures ContractsFor(records[i].chains, symbol) == ContractsFor(records[j].chains, symbol) {
      assert FirstAnswer(Some(f.lines), symbol, asOf) == AnswerOfDay(Some(f.lines), symbol, asOf);
    }
  }

  /** Agreement of the answers is agreement of the records. */
  lemma {:induction false} AnswersAgreeIffTiesAgree(f: DayFile, interval: int)
    requires Clean(f) && interval > 0
    ensures AnswersAgree(f, interval) <==> TiesAgree(f, interval)
  {
    hide Clean, LatestTie, UtcDate, QuoteAlike, FirstAnswer, AnswerOfDay;
    if TiesAgree(f, interval) {
      forall symbol, asOf | AtBoundary(asOf, interval) && UtcDate(asOf) == f.day
        ensures FirstAnswer(Some(f.lines), symbol, asOf) == AnswerOfDay(Some(f.lines), symbol, asOf)
      {
        TiesGiveAnswers(f, interval, symbol, asOf);
      }
    }
    if AnswersAgree(f, interval) {
      forall i, j | LatestTie(RecordsOf(f.lines), i, j, f.day, interval) ensures QuoteAlike(RecordsOf(f.lines), i, j) {
        AnswersGiveTies(f, interval, i, j);
      }
    }
  }

  /** The older file that stays in place of a dropped session answers at every boundary as the session does. */
  ghost predicate StandsIn(f: DayFile, destination: Directory, interval: int) {
    forall symbol, asOf :: AtBoundary(asOf, interval) && UtcDate(asOf) == f.day ==>
      AnswerOfDay(DayOf(destination, f.day), symbol, asOf) == AnswerOfDay(Some(f.lines), symbol, asOf)
  }

  /** What freezing asks of a session: its ties agree, or the file left over in its place stands in for it. */
  ghost predicate Freezable(f: DayFile, destination: Directory, interval: int)
    requires interval > 0
  {
    if LeftOver(f, destination, interval) then StandsIn(f, destination, interval) else TiesAgree(f, interval)
  }

  /** One lookup before and after, by the file of its day. */
  lemma {:induction false} OneLookup(
    source: seq<DayFile>, destination: Directory, interval: int, frozen: seq<DayFile>, symbol: Symbol, asOf: int)
    requires Archive(source) && Archive(frozen) && AtBoundary(asOf, interval)
    requires Freeze(source, destination, interval).Success?
    requires Lists(frozen, Freeze(source, destination, interval).value)
    ensures forall f :: f in source && f.day == UtcDate(asOf) ==>
              Answer(source, symbol, asOf) == AnswerOfDay(Some(f.lines), symbol, asOf) &&
              Answer(frozen, symbol, asOf) ==
                if LeftOver(f, destination, interval) then AnswerOfDay(DayOf(destination, f.day), symbol, asOf)
                else FirstAnswer(Some(f.lines), symbol, asOf)
    ensures (forall f :: f in source ==> f.day != UtcDate(asOf)) ==>
              Answer(frozen, symbol, asOf) == Answer(source, symbol, asOf)
  {
    hide FreezeFile, Freeze, Answer;
    var day, lines := UtcDate(asOf), FileOf(source, UtcDate(asOf));
    FrozenAnswers(source, destination, interval, frozen, symbol, asOf);
    AnswerIsLocal(source, symbol, asOf);
    if lines.Some? {
      forall g | g in source && g.day == day ensures g == DayFile(day, lines.value) {
        SameFile(source, DayFile(day, lines.value), g);
      }
    }
  }

  /** A preserved archive asks of each session what the lookups on its day show. */
  lemma {:induction false} PreservedIsFreezable(
    source: seq<DayFile>, destination: Directory, interval: int, frozen: seq<DayFile>, f: DayFile)
    requires Archive(source) && Archive(frozen) && interval > 0 && f in source
    requires Freeze(source, destination, interval).Success?
    requires Lists(frozen, Freeze(source, destination, interval).value)
    requires Preserved(source, frozen, interval)
    ensures Freezable(f, destination, interval)
  {
    hide FreezeFile, Freeze, Answer, FirstAnswer, AnswerOfDay, LeftOver, TiesAgree, Clean, UtcDate, Lists;
    AnswersAgreeIffTiesAgree(f, interval);
    forall symbol, asOf | AtBoundary(asOf, interval) && UtcDate(asOf) == f.day
      ensures AnswerOfDay(Some(f.lines), symbol, asOf) ==
        if LeftOver(f, destination, interval) then AnswerOfDay(DayOf(destination, f.day), symbol, asOf)
        else FirstAnswer(Some(f.lines), symbol, asOf)
    {
      OneLookup(source, destination, interval, frozen, symbol, asOf);
      assert Answer(frozen, symbol, asOf) == Answer(source, symbol, asOf);
    }
  }

  lemma {:induction false} FreezableAnswers(
    source: seq<DayFile>, destination: Directory, interval: int, frozen: seq<DayFile>, symbol: Symbol, asOf: int)
    requires Archive(source) && Archive(frozen) && AtBoundary(asOf, interval)
    requires Freeze(source, destination, interval).Success?
    requires Lists(frozen, Freeze(source, destination, interval).value)
    requires forall f :: f in source ==> Freezable(f, destination, interval)
    ensures Answer(frozen, symbol, asOf) == Answer(source, symbol, asOf)
  {
    hide FreezeFile, Freeze, Answer, FirstAnswer, AnswerOfDay, LeftOver, TiesAgree, Clean, UtcDate, Lists;
    OneLookup(source, destination, interval, frozen, symbol, asOf);
    var lines := FileOf(source, UtcDate(asOf));
    if lines.Some? {
      var f := DayFile(UtcDate(asOf), lines.value);
      assert f in source && Freezable(f, destination, interval);
      AnswersAgreeIffTiesAgree(f, interval);
    }
  }

  /** A successful freeze preserves every boundary lookup exactly if every session is freezable. */
  lemma {:induction false} FreezePreservesIff(
    source: seq<DayFile>, destination: Directory, interval: int, frozen: seq<DayFile>)
    requires Archive(source) && Archive(frozen)
    requires Freeze(source, destination, interval).Success?
    requires Lists(frozen, Freeze(source, destination, interval).value)
    ensures interval > 0
    ensures Preserved(source, frozen, interval) <==> forall f :: f in source ==> Freezable(f, destination, interval)
  {
    assert interval > 0;
    hide Freeze, Answer, Freezable, Archive, Lists;
    if Preserved(source, frozen, interval) {
      forall f | f in source ensures Freezable(f, destination, interval) {
        PreservedIsFreezable(source, destination, interval, frozen, f);
      }
    }
    if forall f :: f in source ==> Freezable(f, destination, interval) {
      forall symbol, asOf | AtBoundary(asOf, interval)
        ensures Answer(frozen, symbol, asOf) == Answer(source, symbol, asOf)
      {
        FreezableAnswers(source, destination, interval, frozen, symbol, asOf);
      }
    }
  }

  /** Without left-over files that is agreement of the ties. */
  lemma {:induction false} FreezePreservesIffTiesAgree(
    source: seq<DayFile>, destination: Directory, interval: int, frozen: seq<DayFile>)
    requires Archive(source) && Archive(frozen)
    requires Freeze(source, destination, interval).Success?
    requires Lists(frozen, Freeze(source, destination, interval).value)
    requires forall f :: f in source ==> !LeftOver(f, destination, interval)
    ensures interval > 0
    ensures Preserved(source, frozen, interval) <==> forall f :: f in source ==> TiesAgree(f, interval)
  {
    hide Freeze, Archive, Lists, LeftOver, TiesAgree, Preserved;
    FreezePreservesIff(source, destination, interval, frozen);
    assert forall f :: f in source ==> (Freezable(f, destination, interval) <==> TiesAgree(f, interval));
  }

  /** Distinct stamps never tie. */
  lemma {:induction false} DistinctStampsAgree(records: seq<Snapshot>, asOf: int)
    requires StampsDistinct(records)
    ensures FirstOfLatest(records, asOf) == LatestRecorded(records, asOf)
  {
    var best := LatestRecorded(records, asOf);
    if best.Some? {
      LatestIsUnique(records, asOf, best.value);
    }
  }

  lemma {:induction false} DistinctTiesAgree(f: DayFile, interval: int)
    requires interval > 0 && StampsDistinct(RecordsOf(f.lines))
    ensures TiesAgree(f, interval)
  {
  }

  /** The left-over file of a dropped session quotes nothing at any boundary of its day. */
  ghost predicate Silent(lines: Option<seq<Line>>, day: int, interval: int) {
    forall symbol, asOf :: AtBoundary(asOf, interval) && UtcDate(asOf) == day ==> AnswerOfDay(lines, symbol, asOf) == []
  }

  /** A session with distinct stamps that is dropped never answered anything. */
  lemma {:induction false} DroppedIsSilent(f: DayFile, interval: int)
    requires interval > 0 && Clean(f) && !Keeps(f, interval) && StampsDistinct(RecordsOf(f.lines))
    ensures Silent(Some(f.lines), f.day, interval)
  {
    hide FreezeFile, AtBoundary;
    forall symbol, asOf | AtBoundary(asOf, interval) && UtcDate(asOf) == f.day
      ensures AnswerOfDay(Some(f.lines), symbol, asOf) == []
    {
      FrozenFileAnswers(f, interval, symbol, asOf);
      DistinctStampsAgree(RecordsOf(f.lines), asOf);
    }
  }

  lemma {:induction false} SilentStandsIn(f: DayFile, destination: Directory, interval: int)
    requires interval > 0 && Clean(f) && LeftOver(f, destination, interval) && StampsDistinct(RecordsOf(f.lines))
    ensures StandsIn(f, destination, interval) <==> Silent(DayOf(destination, f.day), f.day, interval)
  {
    hide FreezeFile, AnswerOfDay, Clean;
    DroppedIsSilent(f, interval);
  }

  /** With distinct stamps the condition is that no left-over file speaks. */
  lemma {:induction false} FreezePreservesIffLeftOversSilent(
    source: seq<DayFile>, destination: Directory, interval: int, frozen: seq<DayFile>)
    requires Archive(source) && Archive(frozen)
    requires Freeze(source, destination, interval).Success?
    requires Lists(frozen, Freeze(source, destination, interval).value)
    requires forall f :: f in source ==> StampsDistinct(RecordsOf(f.lines))
    ensures Preserved(source, frozen, interval) <==>
            forall f :: f in source && LeftOver(f, destination, interval) ==>
              Silent(DayOf(destination, f.day), f.day, interval)
  {
    hide Freeze, Lists, LeftOver, TiesAgree, Preserved, Clean, Silent, StandsIn, StampsDistinct;
    FreezePreservesIff(source, destination, interval, frozen);
    forall f | f in source
      ensures Freezable(f, destination, interval) <==>
              (LeftOver(f, destination, interval) ==> Silent(DayOf(destination, f.day), f.day, interval))
    {
      DistinctTiesAgree(f, interval);
      if LeftOver(f, destination, interval) {
        SilentStandsIn(f, destination, interval);
      }
    }
  }

  // ---------------------------------------------------------------- freezing twice

  lemma {:induction false} PutFresh(kept: seq<Kept>, boundary: int, s: Snapshot)
    requires forall i :: 0 <= i < |kept| ==> kept[i].boundary != boundary
    ensures Put(kept, boundary, s) == kept + [Kept(boundary, s)]
  {
    if kept != [] {
      PutFresh(kept[1..], boundary, s);
      assert kept == [kept[0]] + kept[1..];
    }
  }

  /** Snapshots that are alone at their boundary are all retained, in order. */
  lemma {:induction false} RetainAll(records: seq<Snapshot>, interval: int)
    requires interval > 0 && BoundariesDistinct(records, interval)
    ensures Snapshots(Retain(records, interval)) == records
    ensures forall i :: 0 <= i < |Retain(records, interval)| ==>
              Retain(records, interval)[i].boundary == Boundary(records[i].cycleAt, interval)
  {
    if records != [] {
      var n := |records| - 1;
      RetainAll(records[..n], interval);
      PutFresh(Retain(records[..n], interval), Boundary(records[n].cycleAt, interval), records[n]);
    }
  }

  /** A frozen file freezes to itself. */
  lemma {:induction false} FrozenFileIsFixed(f: DayFile, interval: int)
    requires interval > 0 && Clean(f) && Keeps(f, interval)
    ensures FreezeFile(DayFile(f.day, FreezeFile(f, interval).value.value), interval) == FreezeFile(f, interval)
    ensures Clean(DayFile(f.day, FreezeFile(f, interval).value.value))
    ensures FreezeFile(f, interval).value.value != []
  {
    var records := RecordsOf(f.lines);
    CleanReadable(f);
    var ordered := Ordered(records, interval);
    OrderedDistinct(records, interval);
    var again := DayFile(f.day, Written(ordered));
    forall i | 0 <= i < |again.lines| ensures UtcDate(again.lines[i].snapshot.cycleAt) == f.day {
      assert ordered[i] in ordered;
    }
    CleanReadable(again);
    RecordsOfWritten(ordered);
    RetainAll(ordered, interval);
    SortOfSorted(ordered);
  }

  lemma {:induction false} FreezeAllSucceeds(files: seq<DayFile>, before: Directory, interval: int)
    requires interval > 0 && forall f :: f in files ==> FreezeFile(f, interval).Success?
    ensures FreezeAll(files, before, interval).Success?
  {
    hide FreezeFile;
    if files != [] {
      FreezeAllSucceeds(files[..|files| - 1], before, interval);
      assert files[|files| - 1] in files;
    }
  }

  /** Freezing the file again with the same interval changes nothing. */
  ghost predicate Fixed(f: DayFile, interval: int)
    requires interval > 0
  {
    Clean(f) && f.lines != [] && FreezeFile(f, interval) == Success(Some(f.lines))
  }

  /** Whatever file is left over in the place of a dropped session is already frozen. */
  ghost predicate LeftOversFixed(source: seq<DayFile>, before: Directory, interval: int)
    requires interval > 0
  {
    forall f :: f in source && LeftOver(f, before, interval) ==> Fixed(DayFile(f.day, before[f.day]), interval)
  }

  /** Every file of a frozen archive is its own frozen form. */
  lemma {:induction false} FrozenListing(source: seq<DayFile>, before: Directory, interval: int, f: DayFile)
    requires Archive(source) && Freeze(source, before, interval).Success?
    requires interval > 0 && LeftOversFixed(source, before, interval)
    requires DayOf(Freeze(source, before, interval).value, f.day) == Some(f.lines)
    ensures Fixed(f, interval)
  {
    hide FreezeFile, Freeze, Clean, Fixed;
    FreezeDay(source, before, interval, f.day);
    var g := DayFile(f.day, FileOf(source, f.day).value);
    assert g in source;
    if Keeps(g, interval) {
      FrozenIsFixed(g, f, interval);
    } else {
      assert LeftOver(g, before, interval);
    }
  }

  lemma {:induction false} FrozenIsFixed(g: DayFile, f: DayFile, interval: int)
    requires interval > 0 && Clean(g) && Keeps(g, interval)
    requires f == DayFile(g.day, FreezeFile(g, interval).value.value)
    ensures Fixed(f, interval)
  {
    hide FreezeFile, Clean;
    FrozenFileIsFixed(g, interval);
  }

  lemma {:induction false} FrozenListings(
    source: seq<DayFile>, before: Directory, interval: int, frozen: seq<DayFile>)
    requires Archive(source) && Freeze(source, before, interval).Success?
    requires interval > 0 && LeftOversFixed(source, before, interval)
    requires Lists(frozen, Freeze(source, before, interval).value)
    ensures forall f :: f in frozen ==> Fixed(f, interval)
    ensures frozen != []
  {
    SomethingKept(source, before, interval);
    hide FreezeFile, Freeze, Clean, Fixed, LeftOversFixed;
    var out := Freeze(source, before, interval).value;
    var g :| g in source && g.day in out;
    assert DayFile(g.day, out[g.day]) in frozen;
    forall f | f in frozen ensures Fixed(f, interval) {
      FrozenListing(source, before, interval, f);
    }
  }

  lemma {:induction false} FixedArchive(frozen: seq<DayFile>, out: Directory, interval: int)
    requires interval > 0 && Lists(frozen, out) && frozen != [] && forall f :: f in frozen ==> Fixed(f, interval)
    ensures Archive(frozen) && NonEmpty(frozen) == frozen
    ensures exists f :: f in frozen && Keeps(f, interval)
  {
    hide FreezeFile, Clean;
    NonEmptyAll(frozen);
    assert frozen[0] in frozen && Fixed(frozen[0], interval) && Keeps(frozen[0], interval);
  }

  /** Freezing a frozen archive again, with the same interval and into any destination, changes nothing. */
  lemma {:induction false} FreezeIsIdempotent(
    source: seq<DayFile>, before: Directory, interval: int, frozen: seq<DayFile>, destination: Directory)
    requires Archive(source) && Freeze(source, before, interval).Success?
    requires interval > 0 && LeftOversFixed(source, before, interval)
    requires Lists(frozen, Freeze(source, before, interval).value)
    ensures Archive(frozen)
    ensures Freeze(frozen, destination, interval) == Freeze(source, before, interval)
  {
    hide Freeze, FreezeFile, Clean, Lists, Archive, Keeps, LeftOversFixed, Fixed;
    var out := Freeze(source, before, interval).value;
    FrozenListings(source, before, interval, frozen);
    FixedArchive(frozen, out, interval);
    FrozenAgain(frozen, out, destination, interval);
    FreezeUnfolds(frozen, destination, interval);
  }

  lemma {:induction false} FrozenAgain(frozen: seq<DayFile>, out: Directory, destination: Directory, interval: int)
    requires interval > 0 && Archive(frozen) && Lists(frozen, out)
    requires forall f :: f in frozen ==> Fixed(f, interval)
    ensures FreezeAll(frozen, Expected(destination, frozen), interval) == Success(out)
  {
    hide FreezeFile, Clean;
    var start := Expected(destination, frozen);
    FreezeAllSucceeds(frozen, start, interval);
    var again := FreezeAll(frozen, start, interval).value;
    forall day ensures DayOf(again, day) == DayOf(out, day) {
      FreezeAllDay(frozen, start, interval, day);
      ListedFile(frozen, out, day);
      ExpectedDays(destination, frozen, day);
    }
    SameDirectory(again, out);
  }

  lemma {:induction false} ExpectedDays(destination: Directory, files: seq<DayFile>, day: int)
    ensures (forall f :: f in files ==> f.day != day) ==> DayOf(Expected(destination, files), day) == None
  {
  }

  lemma {:induction false} FreezeUnfolds(source: seq<DayFile>, destination: Directory, interval: int)
    requires interval > 0 && NonEmpty(source) == source
    requires FreezeAll(source, Expected(destination, source), interval).Success?
    requires exists f :: f in source && Keeps(f, interval)
    ensures Freeze(source, destination, interval) == FreezeAll(source, Expected(destination, source), interval)
  {
    hide FreezeFile;
  }

  lemma {:induction false} SomethingKept(source: seq<DayFile>, before: Directory, interval: int)
    requires Archive(source) && Freeze(source, before, interval).Success?
    ensures exists f :: f in source && f.day in Freeze(source, before, interval).value
  {
    hide FreezeFile, Clean;
    var f :| f in NonEmpty(source) && Keeps(f, interval);
    SameFile(source, DayFile(f.day, FileOf(source, f.day).value), f);
    FreezeDay(source, before, interval, f.day);
  }

  lemma {:induction false} SameDirectory(a: Directory, b: Directory)
    requires forall day :: DayOf(a, day) == DayOf(b, day)
    ensures a == b
  {
    forall day ensures day in a <==> day in b {
      assert DayOf(a, day) == DayOf(b, day);
    }
    forall day | day in a ensures a[day] == b[day] {
      assert DayOf(a, day) == DayOf(b, day);
    }
  }

  lemma {:induction false} NonEmptyAll(files: seq<DayFile>)
    requires forall f :: f in files ==> f.lines != []
    ensures NonEmpty(files) == files
  {
    if files != [] {
      var n := |files| - 1;
      assert files == files[..n] + [files[n]];
      NonEmptyAll(files[..n]);
    }
  }

  // ---------------------------------------------------------------- exactly when it changes nothing

  lemma {:induction false} NonEmptyDistinct(files: seq<DayFile>)
    requires forall i, j :: 0 <= i < j < |files| ==> files[i].day != files[j].day
    ensures forall i, j :: 0 <= i < j < |NonEmpty(files)| ==> NonEmpty(files)[i].day != NonEmpty(files)[j].day
  {
    if files != [] {
      var n := |files| - 1;
      NonEmptyDistinct(files[..n]);
      var rest := NonEmpty(files[..n]);
      forall i | 0 <= i < |rest| ensures rest[i].day != files[n].day {
        assert rest[i] in rest && rest[i] in files[..n];
      }
    }
  }

  /** A file that freezes to itself is clean. */
  lemma {:induction false} SelfFrozenIsFixed(f: DayFile, interval: int)
    requires interval > 0 && f.lines != [] && FreezeFile(f, interval) == Success(Some(f.lines))
    ensures Fixed(f, interval)
  {
    hide Ordered, ContractCount, RecordsOf;
    assert forall i :: 0 <= i < |f.lines| ==> f.lines[i].Record?;
    ReadableUpTo(f.lines, |f.lines|);
    assert f.lines[..|f.lines|] == f.lines;
  }

  /** Frozen once more into an empty directory, a file shows up unchanged only if it is its own frozen form. */
  lemma {:induction false} ReappearsFixed(frozen: seq<DayFile>, interval: int, g: DayFile)
    requires forall i, j :: 0 <= i < j < |frozen| ==> frozen[i].day != frozen[j].day
    requires interval > 0 && g in frozen && Freeze(frozen, map[], interval).Success?
    requires DayOf(Freeze(frozen, map[], interval).value, g.day) == Some(g.lines)
    ensures Fixed(g, interval)
  {
    hide FreezeFile, Fixed;
    var files := NonEmpty(frozen);
    NonEmptyDistinct(frozen);
    FreezeAllDay(files, Expected(map[], files), interval, g.day);
    forall f | f in files && f.day == g.day ensures f == g {
      SameDayFile(frozen, f, g);
    }
    assert g in files;
    SelfFrozenIsFixed(g, interval);
  }

  lemma {:induction false} SameDayFile(files: seq<DayFile>, f: DayFile, g: DayFile)
    requires forall i, j :: 0 <= i < j < |files| ==> files[i].day != files[j].day
    requires f in files && g in files && f.day == g.day
    ensures f == g
  {
    var i :| 0 <= i < |files| && files[i] == f;
    var j :| 0 <= j < |files| && files[j] == g;
  }

  /** A second freeze, into an empty directory, changes nothing exactly if the left-over files were frozen already. */
  lemma {:induction false} FreezeTwiceIffLeftOversFixed(
    source: seq<DayFile>, before: Directory, interval: int, frozen: seq<DayFile>)
    requires Archive(source) && Freeze(source, before, interval).Success?
    requires Lists(frozen, Freeze(source, before, interval).value)
    ensures interval > 0
    ensures Freeze(frozen, map[], interval) == Freeze(source, before, interval) <==>
            LeftOversFixed(source, before, interval)
  {
    assert interval > 0;
    hide Freeze, FreezeFile, Clean, Fixed;
    if LeftOversFixed(source, before, interval) {
      FreezeIsIdempotent(source, before, interval, frozen, map[]);
    }
    if Freeze(frozen, map[], interval) == Freeze(source, before, interval) {
      forall f | f in source && LeftOver(f, before, interval)
        ensures Fixed(DayFile(f.day, before[f.day]), interval)
      {
        FreezeDay(source, before, interval, f.day);
        SameFile(source, DayFile(f.day, FileOf(source, f.day).value), f);
        ReappearsFixed(frozen, interval, DayFile(f.day, before[f.day]));
      }
    }
  }

  // ---------------------------------------------------------------- where the meaning is lost

  const QUOTE := [Chain("SPY", [Contract("SPY240105C00470000", 1.0, 1.1)])]

  const EARLIER := Snapshot(1, QUOTE)
  const LATER := Snapshot(1, [])
  const NEXT := Snapshot(DAY_LENGTH + 1, QUOTE)

  /** One day with two snapshots of the same stamp, of which only the first quotes a contract. */
  const TIED := DayFile(0, [Record(EARLIER), Record(LATER)])

  /** A day without contracts, followed by a day with one. */
  const BARE := DayFile(0, [Record(LATER)])
  const QUOTED := DayFile(1, [Record(NEXT)])

  /** A file of the first day from an earlier freeze. */
  const STALE := [Record(EARLIER)]

  lemma {:induction false} SingleRecord(s: Snapshot)
    ensures RecordsOf([Record(s)]) == [s]
    ensures Visible(s, 10) ==> LatestRecorded([s], 10) == Some(s)
    ensures Ordered([s], 10) == [s]
  {
    assert [Record(s)][..0] == [] && [s][..0] == [];
    assert Retain([s], 10) == [Kept(Boundary(s.cycleAt, 10), s)];
    assert Snapshots(Retain([s], 10)) == [s];
    SortOfSorted([s]);
  }

  lemma {:induction false} QuoteCounts(s: Snapshot)
    ensures s.chains == QUOTE ==> ContractCount([s]) > 0
    ensures s.chains == [] ==> ContractCount([s]) == 0
  {
    assert ContractCount([s]) == ChainCount(s.chains) + ContractCount([s][1..]);
    assert ChainCount(QUOTE) == 1 + ChainCount(QUOTE[1..]);
  }

  lemma {:induction false} QuotedIsKept()
    ensures Clean(QUOTED) && FreezeFile(QUOTED, 10) == Success(Some(QUOTED.lines))
  {
    SingleRecord(NEXT);
    QuoteCounts(NEXT);
    CleanReadable(QUOTED);
    assert Written([NEXT]) == QUOTED.lines;
  }

  lemma {:induction false} BareIsDropped()
    ensures Clean(BARE) && FreezeFile(BARE, 10) == Success(None)
  {
    SingleRecord(LATER);
    QuoteCounts(LATER);
    CleanReadable(BARE);
  }

  lemma {:induction false} TiedRecords()
    ensures RecordsOf(TIED.lines) == [EARLIER, LATER]
    ensures LatestRecorded([EARLIER, LATER], 10) == Some(LATER)
    ensures Ordered([EARLIER, LATER], 10) == [EARLIER]
  {
    hide SortByTime, Retain;
    SingleRecord(EARLIER);
    assert TIED.lines[..1] == [Record(EARLIER)] && [EARLIER, LATER][..1] == [EARLIER];
    TiedRetains();
  }

  lemma {:induction false} TiedRetains()
    ensures Retain([EARLIER, LATER], 10) == Retain([EARLIER], 10)
  {
    assert [EARLIER, LATER][..1] == [EARLIER] && [EARLIER][..0] == [];
    assert Retain([EARLIER], 10) == [Kept(1, EARLIER)];
  }

  lemma {:induction false} TiedIsKept()
    ensures Clean(TIED) && FreezeFile(TIED, 10) == Success(Some(STALE))
  {
    hide Ordered;
    TiedRecords();
    QuoteCounts(EARLIER);
    CleanReadable(TIED);
    assert Written([EARLIER]) == STALE;
  }

  /** A lookup of the first day's quote, by what its file holds. */
  lemma {:induction false} QuoteAnswers()
    ensures AnswerOfDay(Some(STALE), "SPY", 10) == QUOTE[0].contracts
    ensures AnswerOfDay(Some(BARE.lines), "SPY", 10) == []
    ensures AnswerOfDay(Some(TIED.lines), "SPY", 10) == []
  {
    hide Ordered, RecordsOf, LatestRecorded;
    SingleRecord(EARLIER);
    SingleRecord(LATER);
    TiedRecords();
  }

  lemma {:induction false} FreezeAllOne(f: DayFile, frozen: seq<Line>)
    requires FreezeFile(f, 10) == Success(Some(frozen))
    ensures FreezeAll([f], map[], 10) == Success(map[f.day := frozen])
  {
    hide FreezeFile;
    assert [f][..0] == [];
    assert FreezeAll([], map[], 10) == Success(map[]);
  }

  lemma {:induction false} FreezeOne(f: DayFile, frozen: seq<Line>, destination: Directory)
    requires f.lines != [] && FreezeFile(f, 10) == Success(Some(frozen)) && f.day !in destination
    ensures Freeze([f], destination, 10) == Success(map[f.day := frozen])
  {
    hide FreezeFile, FreezeAll, Freeze, NonEmpty;
    NonEmptyAll([f]);
    FreezeAllOne(f, frozen);
    assert Expected(destination, [f]) == map[];
    assert f in [f] && Keeps(f, 10);
    FreezeUnfolds([f], destination, 10);
  }

  /** Two snapshots with the same stamp: the archive answers with the second, the frozen file keeps the first. */
  lemma {:induction false} EqualStampsLoseMeaning()
    ensures Archive([TIED]) && Freeze([TIED], map[], 10) == Success(map[0 := STALE])
    ensures Answer([TIED], "SPY", 10) == [] && Answer([DayFile(0, STALE)], "SPY", 10) == QUOTE[0].contracts
    ensures !Preserved([TIED], [DayFile(0, STALE)], 10)
  {
    hide FreezeFile, AnswerOfDay, Answer, Freeze;
    TiedIsKept();
    FreezeOne(TIED, STALE, map[]);
    QuoteAnswers();
    assert FileOf([TIED], 0) == Some(TIED.lines) && FileOf([DayFile(0, STALE)], 0) == Some(STALE);
    AnswerIsLocal([TIED], "SPY", 10);
    AnswerIsLocal([DayFile(0, STALE)], "SPY", 10);
    assert AtBoundary(10, 10);
  }

  lemma {:induction false} FreezeBareAndQuoted()
    ensures Freeze([BARE, QUOTED], map[0 := STALE], 10) == Success(map[0 := STALE, 1 := QUOTED.lines])
  {
    hide FreezeFile, Freeze, NonEmpty;
    var source, before := [BARE, QUOTED], map[0 := STALE];
    BareIsDropped();
    QuotedIsKept();
    NonEmptyAll(source);
    assert source[..1] == [BARE] && [BARE][..0] == [];
    assert BARE in source && QUOTED in source && Keeps(QUOTED, 10);
    assert Expected(before, source) == before;
    assert FreezeAll([BARE], before, 10) == Success(before);
    FreezeUnfolds(source, before, 10);
  }

  /** A session without contracts leaves an older frozen file of its name in place, and that file still answers. */
  lemma {:induction false} LeftOverFileSpeaks()
    ensures Archive([BARE, QUOTED])
    ensures Freeze([BARE, QUOTED], map[0 := STALE], 10) == Success(map[0 := STALE, 1 := QUOTED.lines])
    ensures Answer([BARE, QUOTED], "SPY", 10) == []
    ensures Answer([DayFile(0, STALE), QUOTED], "SPY", 10) == QUOTE[0].contracts
    ensures !Preserved([BARE, QUOTED], [DayFile(0, STALE), QUOTED], 10)
  {
    hide FreezeFile, AnswerOfDay, Answer, Freeze;
    BareIsDropped();
    QuotedIsKept();
    FreezeBareAndQuoted();
    QuoteAnswers();
    assert FileOf([BARE, QUOTED], 0) == Some(BARE.lines) && FileOf([DayFile(0, STALE), QUOTED], 0) == Some(STALE);
    AnswerIsLocal([BARE, QUOTED], "SPY", 10);
    AnswerIsLocal([DayFile(0, STALE), QUOTED], "SPY", 10);
    assert AtBoundary(10, 10);
  }

  // ---------------------------------------------------------------- the loops

  /** The reading loop over one file: skip blanks, stop at a torn line, reject what is not a snapshot of the day. */
  method FreezeOneFile(f: DayFile, interval: int) returns (result: Result<Option<seq<Line>>>)
    requires interval > 0
    ensures result == FreezeFile(f, interval)
  {
    hide Boundary, Put, FreezeFile, Retain, RecordsOf, Written, SortByTime, ContractCount, UtcDate;
    var retained: seq<Kept> := [];
    var i := 0;
    NothingRetained(f.lines, interval);
    while i < |f.lines|
      invariant 0 <= i <= |f.lines|
      invariant forall j :: 0 <= j < i ==> Acceptable(f, f.lines[j])
      invariant retained == Retain(RecordsOf(f.lines[..i]), interval)
    {
      RetainLine(f.lines, i, interval);
      match f.lines[i] {
        case Blank =>
        case Torn => break;
        case Malformed =>
          RejectedAt(f, i, interval);
          return Failure;
        case Record(s) =>
          if UtcDate(s.cycleAt) != f.day {
            RejectedAt(f, i, interval);
            return Failure;
          }
          retained := Put(retained, Boundary(s.cycleAt, interval), s);
      }
      i := i + 1;
    }
    AcceptedUpTo(f, i, interval);
    var ordered := SortByTime(Snapshots(retained));
    NothingCounts();
    if ordered == [] || ContractCount(ordered) <= 0 {
      return Success(None);
    }
    return Success(Some(Written(ordered)));
  }

  lemma {:induction false} NothingRetained(lines: seq<Line>, interval: int)
    requires interval > 0
    ensures Retain(RecordsOf(lines[..0]), interval) == []
  {
  }

  lemma {:induction false} NothingCounts()
    ensures ContractCount([]) == 0
  {
  }

  predicate Acceptable(f: DayFile, line: Line) {
    line.Blank? || (line.Record? && UtcDate(line.snapshot.cycleAt) == f.day)
  }

  lemma {:induction false} RejectedAt(f: DayFile, i: nat, interval: int)
    requires interval > 0 && i < |f.lines|
    requires forall j :: 0 <= j < i ==> Acceptable(f, f.lines[j])
    requires !Acceptable(f, f.lines[i]) && !f.lines[i].Torn?
    ensures FreezeFile(f, interval) == Failure
  {
    ReadableUpTo(f.lines, i + 1);
  }

  lemma {:induction false} AcceptedUpTo(f: DayFile, i: nat, interval: int)
    requires interval > 0 && i <= |f.lines|
    requires forall j :: 0 <= j < i ==> Acceptable(f, f.lines[j])
    requires i == |f.lines| || f.lines[i].Torn?
    ensures var ordered := Ordered(RecordsOf(f.lines[..i]), interval);
            FreezeFile(f, interval) == Success(if ContractCount(ordered) == 0 then None else Some(Written(ordered)))
  {
    ReadableUpTo(f.lines, i);
  }

  lemma {:induction false} RetainLine(lines: seq<Line>, i: nat, interval: int)
    requires interval > 0 && i < |lines|
    ensures var before := Retain(RecordsOf(lines[..i]), interval);
            Retain(RecordsOf(lines[..i + 1]), interval)
            == if lines[i].Record? then
                 Put(before, Boundary(lines[i].snapshot.cycleAt, interval), lines[i].snapshot)
               else before
  {
    hide Boundary, Put;
    var records := RecordsOf(lines[..i]);
    assert lines[..i + 1][..i] == lines[..i];
    if lines[i].Record? {
      assert (records + [lines[i].snapshot])[..|records|] == records;
    }
  }

  /** freeze_option_chain_snapshots: remove stale files, then freeze session by session. */
  method FreezeArchive(source: seq<DayFile>, destination: Directory, interval: int) returns (result: Result<Directory>)
    ensures result == Freeze(source, destination, interval)
  {
    hide FreezeFile, Expected;
    if interval <= 0 {
      return Failure;
    }
    var files := NonEmpty(source);
    if files == [] {
      return Failure;
    }
    var current := Expected(destination, files);
    var sessions := 0;
    for i := 0 to |files|
      invariant FreezeAll(files[..i], Expected(destination, files), interval) == Success(current)
      invariant sessions > 0 <==> exists k :: 0 <= k < i && Keeps(files[k], interval)
      invariant sessions >= 0
    {
      var frozen := FreezeOneFile(files[i], interval);
      FreezeAllStep(files, i, Expected(destination, files), interval);
      if frozen.Failure? {
        FailureStays(files, i + 1, Expected(destination, files), interval);
        return Failure;
      }
      if frozen.value.Some? {
        current := current[files[i].day := frozen.value.value];
        sessions := sessions + 1;
        assert Keeps(files[i], interval);
      }
    }
    assert files[..|files|] == files;
    if sessions == 0 {
      return Failure;
    }
    return Success(current);
  }

  lemma {:induction false} FreezeAllStep(files: seq<DayFile>, i: nat, before: Directory, interval: int)
    requires interval > 0 && i < |files| && FreezeAll(files[..i], before, interval).Success?
    ensures var d, frozen := FreezeAll(files[..i], before, interval).value, FreezeFile(files[i], interval);
            FreezeAll(files[..i + 1], before, interval)
            == if frozen.Failure? then Failure
               else if frozen.value.None? then Success(d)
               else Success(d[files[i].day := frozen.value.value])
  {
    hide FreezeFile;
    assert files[..i + 1][..i] == files[..i];
  }

  lemma {:induction false} FailureStays(files: seq<DayFile>, i: nat, before: Directory, interval: int)
    requires interval > 0 && i <= |files| && FreezeAll(files[..i], before, interval).Failure?
    ensures FreezeAll(files, before, interval).Failure?
    decreases |files|
  {
    hide FreezeFile;
    var n := |files|;
    if i == n {
      assert files[..i] == files;
    } else {
      assert files[..n - 1][..i] == files[..i];
      FailureStays(files[..n - 1], i, before, interval);
    }
  }
}
