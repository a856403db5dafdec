/** Capping a setup scan fairly across candidates (nightly/setup_variants.py). */
module SetupVariants {
  import opened Numbers
  import opened Domain
  import opened Collections

  datatype Row = Row(candidate: string, setup: string, variant: string)

  // ---------------------------------------------------------------- even spacing

  /** The position of the index-th of `count` picks spread over 0..last. */
  function Spread(index: nat, last: nat, count: nat): int
    requires count >= 2
  {
    HalfEven((index * last) as real / (count - 1) as real)
  }

  /** The positions that _evenly_spaced keeps out of `length` rows. */
  function EvenPositions(length: nat, count: nat): (positions: seq<int>)
    ensures |positions| == if count < length then count else length
  {
    if count >= length then seq(length, i => i)
    else if count == 0 then []
    else if count == 1 then [(length - 1) / 2]
    else seq(count, i requires 0 <= i => Spread(i, length - 1, count))
  }

  /** Adjacent picks are more than one row apart, so half-even rounding cannot merge them. */
  lemma {:induction false} SpreadStep(index: nat, last: nat, count: nat)
    requires 2 <= count <= last
    ensures Spread(index, last, count) < Spread(index + 1, last, count)
  {
    var c := (count - 1) as real;
    var x, y := (index * last) as real, ((index + 1) * last) as real;
    assert (index + 1) * last == index * last + last;
    assert y - x == last as real;
    assert y / c == x / c + last as real / c;
    QuotientAboveOne(last as real, c);
    HalfEvenStrict(x / c, y / c);
  }

  lemma {:induction false} QuotientAboveOne(x: real, y: real)
    requires x > y > 0.0
    ensures x / y > 1.0
  {
    var q := x / y;
    assert q * y == x;
    if q <= 1.0 {
      TimesMonotone(q, 1.0, y);
    }
  }

  lemma {:induction false} SpreadIncreasing(i: nat, j: nat, last: nat, count: nat)
    requires 2 <= count <= last && i < j
    ensures Spread(i, last, count) < Spread(j, last, count)
    decreases j
  {
    SpreadStep(j - 1, last, count);
    if i < j - 1 {
      SpreadIncreasing(i, j - 1, last, count);
    }
  }

  lemma {:induction false} SpreadEnds(last: nat, count: nat)
    requires 2 <= count
    ensures Spread(0, last, count) == 0
    ensures Spread(count - 1, last, count) == last
  {
    HalfEvenExact(0);
    HalfEvenExact(last);
    var c := (count - 1) as real;
    assert (0 * last) as real / c == 0.0;
    var x := ((count - 1) * last) as real / c;
    assert ((count - 1) * last) as real == c * last as real;
    assert x * c == last as real * c;
    assert x == last as real;
  }

  /** The kept positions are in range, strictly increasing, and reach both ends from two picks on. */
  lemma {:induction false} EvenPositionsSpread(length: nat, count: nat)
    ensures var p := EvenPositions(length, count);
            && Increasing(p)
            && (forall i :: 0 <= i < |p| ==> 0 <= p[i] < length)
            && (count >= 2 && length > 0 ==> p[0] == 0 && p[|p| - 1] == length - 1)
  {
    hide Spread;
    var p := EvenPositions(length, count);
    if 2 <= count < length {
      SpreadEnds(length - 1, count);
      forall i, j | 0 <= i < j < |p| ensures p[i] < p[j] {
        SpreadIncreasing(i, j, length - 1, count);
      }
      assert p[0] == 0 && p[|p| - 1] == length - 1;
      forall i | 0 <= i < |p| ensures 0 <= p[i] < length {
        assert i == 0 || p[0] < p[i];
        assert i == |p| - 1 || p[i] < p[|p| - 1];
      }
    }
  }

  // ---------------------------------------------------------------- round-robin quotas

  function MinInt(x: int, y: int): int { if x <= y then x else y }

  /** The quotas after `level` full passes and the first `k` candidates of one more. */
  function RoundRobin(sizes: seq<int>, level: nat, k: nat): (q: seq<int>)
    ensures |q| == |sizes|
    ensures forall i :: 0 <= i < |q| ==> q[i] == MinInt(sizes[i], if i < k then level + 1 else level)
  {
    seq(|sizes|, i requires 0 <= i < |sizes| => MinInt(sizes[i], if i < k then level + 1 else level))
  }

  /** A fair split of `total`: two quotas differ by more than one only if the smaller group is used up. */
  ghost predicate Fair(sizes: seq<int>, quotas: seq<int>, total: int) {
    && |quotas| == |sizes|
    && Sum(quotas) == total
    && (forall i :: 0 <= i < |sizes| ==> 0 <= quotas[i] <= sizes[i])
    && (forall i, j :: 0 <= i < |sizes| && 0 <= j < |sizes| && quotas[i] + 1 < quotas[j] ==> quotas[i] == sizes[i])
    && (forall i, j :: 0 <= i < j < |sizes| && quotas[i] < quotas[j] ==> quotas[i] == sizes[i])
  }

  /** A fair split in which earlier candidates go first is unique, so `Fair` determines the quotas. */
  lemma {:induction false} FairIsUnique(sizes: seq<int>, q: seq<int>, r: seq<int>, total: int)
    requires Fair(sizes, q, total) && Fair(sizes, r, total)
    ensures q == r
  {
    if exists i :: 0 <= i < |sizes| && q[i] < r[i] {
      var i :| 0 <= i < |sizes| && q[i] < r[i];
      assert forall j :: 0 <= j < |sizes| ==> q[j] <= r[j];
      SumMonotone(q, r);
    } else {
      SumMonotone(r, q);
    }
  }

  lemma {:induction false} RoundRobinFair(sizes: seq<int>, level: nat, k: nat, total: int)
    requires forall i :: 0 <= i < |sizes| ==> sizes[i] >= 0
    requires Sum(RoundRobin(sizes, level, k)) == total
    ensures Fair(sizes, RoundRobin(sizes, level, k), total)
  {
  }

  lemma {:induction false} RoundRobinStep(sizes: seq<int>, level: nat, c: nat)
    requires c < |sizes|
    ensures var q := RoundRobin(sizes, level, c);
            if q[c] < sizes[c] then
              && RoundRobin(sizes, level, c + 1) == q[c := q[c] + 1]
              && Sum(RoundRobin(sizes, level, c + 1)) == Sum(q) + 1
            else RoundRobin(sizes, level, c + 1) == q
  {
    var q := RoundRobin(sizes, level, c);
    if q[c] < sizes[c] {
      SumUpdate(q, c, q[c] + 1);
      assert RoundRobin(sizes, level, c + 1) == q[c := q[c] + 1];
    } else {
      assert RoundRobin(sizes, level, c + 1) == q;
    }
  }

  /** A pass that serves nobody has nothing left to serve. */
  lemma {:induction false} RoundRobinExhausted(sizes: seq<int>, level: nat)
    requires RoundRobin(sizes, level, |sizes|) == RoundRobin(sizes, level, 0)
    ensures RoundRobin(sizes, level, 0) == sizes
  {
    var q, r := RoundRobin(sizes, level, 0), RoundRobin(sizes, level, |sizes|);
    assert forall i :: 0 <= i < |sizes| ==> q[i] == r[i];
  }

  /** While rows are left over, a pass serves someone. */
  lemma {:induction false} RoundRobinServes(sizes: seq<int>, level: nat)
    ensures Sum(RoundRobin(sizes, level, |sizes|)) < Sum(sizes) ==>
      RoundRobin(sizes, level, |sizes|) != RoundRobin(sizes, level, 0)
  {
    hide RoundRobin, Sum;
    if RoundRobin(sizes, level, |sizes|) == RoundRobin(sizes, level, 0) {
      RoundRobinExhausted(sizes, level);
    }
  }

  /** The allocation loop: one slot per candidate and pass until `total` slots are gone. */
  method AllocateQuotas(sizes: seq<int>, total: nat) returns (quotas: seq<int>)
    requires forall i :: 0 <= i < |sizes| ==> sizes[i] >= 1
    requires total <= Sum(sizes)
    ensures Fair(sizes, quotas, total)
  {
    hide RoundRobin, Fair, Sum;
    quotas := seq(|sizes|, i => 0);
    var remaining := total;
    ghost var level, k := 0, 0;
    SumOfZeros(quotas);
    assert quotas == RoundRobin(sizes, level, k);
    while remaining > 0
      invariant quotas == RoundRobin(sizes, level, k)
      invariant Sum(quotas) + remaining == total && remaining >= 0
      invariant remaining > 0 ==> k == 0
    {
      var gave := false;
      ghost var first := remaining;
      var c := 0;
      while c < |sizes|
        invariant 0 <= c <= |sizes|
        invariant quotas == RoundRobin(sizes, level, c)
        invariant Sum(quotas) + remaining == total
        invariant 0 < remaining <= first
        invariant if gave then remaining < first else quotas == RoundRobin(sizes, level, 0) && remaining == first
      {
        RoundRobinStep(sizes, level, c);
        if quotas[c] < sizes[c] {
          quotas := quotas[c := quotas[c] + 1];
          remaining := remaining - 1;
          gave := true;
          if remaining == 0 {
            k := c + 1;
            break;
          }
        }
        c := c + 1;
      }
      RoundRobinServes(sizes, level);
      if remaining > 0 {
        assert RoundRobin(sizes, level, |sizes|) == RoundRobin(sizes, level + 1, 0);
        level := level + 1;
      }
    }
    RoundRobinFair(sizes, level, k, total);
  }

  lemma {:induction false} SumOfZeros(s: seq<int>)
    requires forall i :: 0 <= i < |s| ==> s[i] == 0
    ensures Sum(s) == 0
  {
    if s != [] {
      SumOfZeros(s[..|s| - 1]);
    }
  }

  // ---------------------------------------------------------------- grouping

  /** Candidates in the order of their first row. */
  function CandidateOrder(rows: seq<Row>): (order: seq<string>)
    ensures forall i :: 0 <= i < |rows| ==> rows[i].candidate in order
    ensures forall c :: c in order ==> exists i :: 0 <= i < |rows| && rows[i].candidate == c
    ensures Distinct(order)
  {
    if rows == [] then []
    else
      var n := |rows| - 1;
      var order := CandidateOrder(rows[..n]);
      assert forall i :: 0 <= i < n ==> rows[..n][i].candidate == rows[i].candidate;
      if rows[n].candidate in order then order else order + [rows[n].candidate]
  }

  /** The positions of a candidate's rows, in input order. */
  function PositionsOf(rows: seq<Row>, candidate: string): (positions: seq<nat>)
    ensures forall i :: 0 <= i < |positions| ==> positions[i] < |rows| && rows[positions[i]].candidate == candidate
    ensures Increasing(positions)
  {
    if rows == [] then []
    else
      var n := |rows| - 1;
      var rest := PositionsOf(rows[..n], candidate);
      if rows[n].candidate == candidate then rest + [n] else rest
  }

  function GroupSizes(rows: seq<Row>, order: seq<string>): (sizes: seq<int>)
    ensures |sizes| == |order|
  {
    seq(|order|, c requires 0 <= c < |order| => |PositionsOf(rows, order[c])|)
  }

  lemma {:induction false} EveryCandidateHasRows(rows: seq<Row>, candidate: string, i: nat)
    requires i < |rows| && rows[i].candidate == candidate
    ensures |PositionsOf(rows, candidate)| >= 1
  {
    var n := |rows| - 1;
    if i < n {
      EveryCandidateHasRows(rows[..n], candidate, i);
    }
  }

  /** The groups partition the rows, so their sizes add up to the number of rows. */
  lemma {:induction false} GroupSizesTotal(rows: seq<Row>)
    ensures Sum(GroupSizes(rows, CandidateOrder(rows))) == |rows|
  {
    if rows == [] {
      assert GroupSizes(rows, CandidateOrder(rows)) == [];
    } else {
      var n := |rows| - 1;
      var before, c := CandidateOrder(rows[..n]), rows[n].candidate;
      GroupSizesTotal(rows[..n]);
      var sizes := GroupSizes(rows[..n], before);
      if c in before {
        var k :| 0 <= k < |before| && before[k] == c;
        SumUpdate(sizes, k, sizes[k] + 1);
        KnownGrows(rows, before, k);
      } else {
        NoRows(rows[..n], c);
        SumAppend(sizes, 1);
        NewGrows(rows, before);
      }
    }
  }

  lemma {:induction false} KnownGrows(rows: seq<Row>, order: seq<string>, k: nat)
    requires rows != [] && k < |order| && order[k] == rows[|rows| - 1].candidate && Distinct(order)
    ensures var sizes := GroupSizes(rows[..|rows| - 1], order);
            GroupSizes(rows, order) == sizes[k := sizes[k] + 1]
  {
    var sizes := GroupSizes(rows[..|rows| - 1], order);
    forall c | 0 <= c < |order| ensures GroupSizes(rows, order)[c] == if c == k then sizes[k] + 1 else sizes[c] {
    }
  }

  lemma {:induction false} NewGrows(rows: seq<Row>, order: seq<string>)
    requires rows != [] && rows[|rows| - 1].candidate !in order
    requires PositionsOf(rows[..|rows| - 1], rows[|rows| - 1].candidate) == []
    ensures GroupSizes(rows, order + [rows[|rows| - 1].candidate]) == GroupSizes(rows[..|rows| - 1], order) + [1]
  {
    var more := order + [rows[|rows| - 1].candidate];
    forall c | 0 <= c < |more|
      ensures GroupSizes(rows, more)[c] == (GroupSizes(rows[..|rows| - 1], order) + [1])[c]
    {
      assert more[c] == if c < |order| then order[c] else rows[|rows| - 1].candidate;
    }
  }

  lemma {:induction false} NoRows(rows: seq<Row>, candidate: string)
    requires forall i :: 0 <= i < |rows| ==> rows[i].candidate != candidate
    ensures PositionsOf(rows, candidate) == []
  {
    if rows != [] {
      NoRows(rows[..|rows| - 1], candidate);
    }
  }

  // ---------------------------------------------------------------- interleaving

  /** The candidates from 0 to `upTo` that still have an index-th pick, paired with that index. */
  function Column(quotas: seq<int>, index: nat, upTo: nat): seq<(nat, nat)>
    requires upTo <= |quotas|
  {
    if upTo == 0 then []
    else
      var rest := Column(quotas, index, upTo - 1);
      if index < quotas[upTo - 1] then rest + [(index, upTo - 1)] else rest
  }

  /** All picks, column by column. */
  function Slots(quotas: seq<int>, columns: nat): seq<(nat, nat)> {
    if columns == 0 then [] else Slots(quotas, columns - 1) + Column(quotas, columns - 1, |quotas|)
  }

  predicate SlotBefore(a: (nat, nat), b: (nat, nat)) {
    a.0 < b.0 || (a.0 == b.0 && a.1 < b.1)
  }

  ghost predicate SlotsSorted(slots: seq<(nat, nat)>) {
    forall i, j :: 0 <= i < j < |slots| ==> SlotBefore(slots[i], slots[j])
  }

  lemma {:induction false} NoSlots()
    ensures SlotsSorted([])
  {
  }

  /** A column lists exactly the candidates with a further pick, in candidate order. */
  lemma {:induction false} ColumnSlots(quotas: seq<int>, index: nat, upTo: nat)
    requires upTo <= |quotas|
    ensures SlotsSorted(Column(quotas, index, upTo))
    ensures forall p :: p in Column(quotas, index, upTo) <==> p.0 == index && p.1 < upTo && index < quotas[p.1]
  {
    hide SlotsSorted;
    if upTo == 0 {
      NoSlots();
    } else {
      ColumnSlots(quotas, index, upTo - 1);
      var rest := Column(quotas, index, upTo - 1);
      if index < quotas[upTo - 1] {
        SlotsAppend(rest, (index, upTo - 1));
      }
    }
  }

  lemma {:induction false} SlotsAppend(slots: seq<(nat, nat)>, last: (nat, nat))
    requires SlotsSorted(slots) && forall p :: p in slots ==> SlotBefore(p, last)
    ensures SlotsSorted(slots + [last])
  {
    forall i | 0 <= i < |slots| ensures SlotBefore(slots[i], last) {
      assert slots[i] in slots;
    }
  }

  lemma {:induction false} ColumnCount(quotas: seq<int>, index: nat, upTo: nat)
    requires upTo <= |quotas|
    ensures |Column(quotas, index, upTo)|
         == Sum(RoundRobin(quotas, index + 1, 0)[..upTo]) - Sum(RoundRobin(quotas, index, 0)[..upTo])
  {
    var more, less := RoundRobin(quotas, index + 1, 0), RoundRobin(quotas, index, 0);
    if upTo > 0 {
      ColumnCount(quotas, index, upTo - 1);
      assert more[..upTo][..upTo - 1] == more[..upTo - 1] && less[..upTo][..upTo - 1] == less[..upTo - 1];
    }
  }

  /** The interleaving lists each pick once. */
  lemma {:induction false} SlotsComplete(quotas: seq<int>, columns: nat)
    ensures SlotsSorted(Slots(quotas, columns))
    ensures forall p :: p in Slots(quotas, columns) <==> p.0 < columns && p.1 < |quotas| && p.0 < quotas[p.1]
  {
    hide SlotsSorted, Column;
    if columns == 0 {
      assert SlotsSorted([]) by { NoSlots(); }
    } else {
      SlotsComplete(quotas, columns - 1);
      ColumnSlots(quotas, columns - 1, |quotas|);
      var front, last := Slots(quotas, columns - 1), Column(quotas, columns - 1, |quotas|);
      SlotsJoin(front, last, columns - 1);
    }
  }

  lemma {:induction false} SlotsJoin(front: seq<(nat, nat)>, last: seq<(nat, nat)>, index: nat)
    requires SlotsSorted(front) && SlotsSorted(last)
    requires forall p :: p in front ==> p.0 < index
    requires forall p :: p in last ==> p.0 == index
    ensures SlotsSorted(front + last)
  {
    var s := front + last;
    forall i, j | 0 <= i < j < |s| ensures SlotBefore(s[i], s[j]) {
      if i < |front| && j >= |front| {
        assert s[i] in front && s[j] in last;
      }
    }
  }

  /** ... and as many picks as the quotas allow. */
  lemma {:induction false} SlotsCount(quotas: seq<int>, columns: nat)
    requires forall c :: 0 <= c < |quotas| ==> quotas[c] >= 0
    ensures |Slots(quotas, columns)| == Sum(RoundRobin(quotas, columns, 0))
  {
    var more := RoundRobin(quotas, columns, 0);
    if columns == 0 {
      SumOfZeros(more);
    } else {
      SlotsCount(quotas, columns - 1);
      ColumnCount(quotas, columns - 1, |quotas|);
      var less := RoundRobin(quotas, columns - 1, 0);
      assert more[..|quotas|] == more && less[..|quotas|] == less;
    }
  }

  // ---------------------------------------------------------------- the cap

  /** _evenly_spaced. */
  function EvenlySpaced<T>(rows: seq<T>, count: nat): seq<T> {
    EvenPositionsSpread(|rows|, count);
    Pick(rows, EvenPositions(|rows|, count))
  }

  function MaxOf(s: seq<int>): (m: nat)
    ensures forall i :: 0 <= i < |s| ==> s[i] <= m
  {
    if s == [] then 0
    else
      var m := MaxOf(s[..|s| - 1]);
      if s[|s| - 1] > m then s[|s| - 1] else m
  }

  /** The input positions kept for the c-th candidate. */
  function Kept(rows: seq<Row>, quotas: seq<int>, c: nat): (kept: seq<int>)
    requires |quotas| == |CandidateOrder(rows)| && c < |quotas| && quotas[c] >= 0
    ensures |kept| == MinInt(quotas[c], |PositionsOf(rows, CandidateOrder(rows)[c])|)
    ensures Increasing(kept)
    ensures forall i :: 0 <= i < |kept| ==> 0 <= kept[i] < |rows| && rows[kept[i]].candidate == CandidateOrder(rows)[c]
  {
    EvenPositionsSpread(|PositionsOf(rows, CandidateOrder(rows)[c])|, quotas[c]);
    EvenlySpaced(PositionsOf(rows, CandidateOrder(rows)[c]), quotas[c])
  }

  /** The input position of the i-th capped row. */
  ghost function CapPosition(rows: seq<Row>, quotas: seq<int>, max: int, i: nat): (p: int)
    requires Fair(GroupSizes(rows, CandidateOrder(rows)), quotas, max)
    requires i < |Slots(quotas, MaxOf(quotas))|
    ensures 0 <= p < |rows|
    ensures Slots(quotas, MaxOf(quotas))[i].1 < |quotas|
    ensures rows[p].candidate == CandidateOrder(rows)[Slots(quotas, MaxOf(quotas))[i].1]
  {
    var slots := Slots(quotas, MaxOf(quotas));
    SlotsComplete(quotas, MaxOf(quotas));
    assert slots[i] in slots;
    Kept(rows, quotas, slots[i].1)[slots[i].0]
  }

  /** The input positions of all capped rows, in output order. */
  ghost function CapPositions(rows: seq<Row>, quotas: seq<int>, max: int): (positions: seq<int>)
    requires Fair(GroupSizes(rows, CandidateOrder(rows)), quotas, max)
    ensures |positions| == |Slots(quotas, MaxOf(quotas))|
    ensures forall i :: 0 <= i < |positions| ==> positions[i] == CapPosition(rows, quotas, max, i)
  {
    seq(|Slots(quotas, MaxOf(quotas))|,
        i requires 0 <= i < |Slots(quotas, MaxOf(quotas))| => CapPosition(rows, quotas, max, i))
  }

  /** Exactly `max` rows come out. */
  lemma {:induction false} CapCount(rows: seq<Row>, quotas: seq<int>, max: int)
    requires Fair(GroupSizes(rows, CandidateOrder(rows)), quotas, max)
    ensures |CapPositions(rows, quotas, max)| == max
  {
    SlotsCount(quotas, MaxOf(quotas));
    assert RoundRobin(quotas, MaxOf(quotas), 0) == quotas;
  }

  /** They come from distinct input positions, and rows of one candidate keep their input order. */
  lemma {:induction false} CapOrder(rows: seq<Row>, quotas: seq<int>, max: int, i: nat, j: nat)
    requires Fair(GroupSizes(rows, CandidateOrder(rows)), quotas, max)
    requires i < j < |CapPositions(rows, quotas, max)|
    ensures var p := CapPositions(rows, quotas, max);
            && p[i] != p[j]
            && (rows[p[i]].candidate == rows[p[j]].candidate ==> p[i] < p[j])
  {
    var slots := Slots(quotas, MaxOf(quotas));
    SlotsComplete(quotas, MaxOf(quotas));
    assert SlotBefore(slots[i], slots[j]);
    assert slots[i] in slots && slots[j] in slots;
    var order := CandidateOrder(rows);
    if slots[i].1 == slots[j].1 {
      var kept := Kept(rows, quotas, slots[i].1);
      assert kept[slots[i].0] < kept[slots[j].0];
    } else {
      assert order[slots[i].1] != order[slots[j].1];
    }
  }

  /** Every candidate's evenly spaced rows all come out ... */
  lemma {:induction false} CapKeeps(rows: seq<Row>, quotas: seq<int>, max: int, c: nat, k: nat)
    requires Fair(GroupSizes(rows, CandidateOrder(rows)), quotas, max)
    requires c < |quotas| && k < |Kept(rows, quotas, c)|
    ensures Kept(rows, quotas, c)[k] in CapPositions(rows, quotas, max)
  {
    hide Kept, Slots, CandidateOrder;
    var slots := Slots(quotas, MaxOf(quotas));
    SlotsComplete(quotas, MaxOf(quotas));
    assert (k, c) in slots;
    var i :| 0 <= i < |slots| && slots[i] == (k, c);
    assert CapPosition(rows, quotas, max, i) == Kept(rows, quotas, c)[k];
    assert CapPositions(rows, quotas, max)[i] == Kept(rows, quotas, c)[k];
  }

  /** ... and they reach from the candidate's first row to its last once it has two slots. */
  lemma {:induction false} CapReachesEnds(rows: seq<Row>, quotas: seq<int>, c: nat)
    requires |quotas| == |CandidateOrder(rows)| && c < |quotas|
    requires 2 <= quotas[c] <= |PositionsOf(rows, CandidateOrder(rows)[c])|
    ensures var own, kept := PositionsOf(rows, CandidateOrder(rows)[c]), Kept(rows, quotas, c);
            kept[0] == own[0] && kept[|kept| - 1] == own[|own| - 1]
  {
    EvenPositionsSpread(|PositionsOf(rows, CandidateOrder(rows)[c])|, quotas[c]);
  }

  /** stratified_variant_cap: the whole input when it fits, otherwise the fair interleaved selection. */
  method StratifiedVariantCap(rows: seq<Row>, max: int) returns (r: Result<seq<Row>>, ghost quotas: seq<int>)
    ensures max < 0 <==> r == Failure
    ensures max == 0 || 0 <= |rows| <= max ==> r == Success(rows)
    ensures 0 < max < |rows| ==>
      && Fair(GroupSizes(rows, CandidateOrder(rows)), quotas, max)
      && r == Success(Pick(rows, CapPositions(rows, quotas, max)))
  {
    hide CandidateOrder, PositionsOf, Kept, CapPositions, Pick;
    quotas := [];
    if max < 0 {
      return Failure, quotas;
    }
    if max == 0 || |rows| <= max {
      return Success(rows), quotas;
    }
    var order, grouped := GroupRows(rows);
    var sizes := seq(|order|, c requires 0 <= c < |order| => |grouped[order[c]]|);
    assert sizes == GroupSizes(rows, order);
    EveryGroupHasRows(rows);
    GroupSizesTotal(rows);
    var q := AllocateQuotas(sizes, max);
    quotas := q;
    var selected := SelectRows(rows, q, order, grouped);
    SelectedSizes(rows, q, selected, max);
    var capped := Interleave(q, selected);
    RendersCap(rows, q, selected, max, capped);
    r := Success(capped);
  }

  lemma {:induction false} EveryGroupHasRows(rows: seq<Row>)
    ensures forall c :: 0 <= c < |CandidateOrder(rows)| ==> GroupSizes(rows, CandidateOrder(rows))[c] >= 1
  {
    var order := CandidateOrder(rows);
    forall c | 0 <= c < |order| ensures GroupSizes(rows, order)[c] >= 1 {
      assert order[c] in order;
      var i :| 0 <= i < |rows| && rows[i].candidate == order[c];
      EveryCandidateHasRows(rows, order[c], i);
    }
  }

  /** Each candidate's evenly spaced rows, in candidate order. */
  method SelectRows(rows: seq<Row>, quotas: seq<int>, order: seq<string>, grouped: map<string, seq<Row>>)
    returns (selected: seq<seq<Row>>)
    requires order == CandidateOrder(rows) && Grouped(rows, order, grouped)
    requires |quotas| == |order| && forall c :: 0 <= c < |quotas| ==> quotas[c] >= 0
    ensures Selected(rows, quotas, selected)
  {
    hide CandidateOrder, PositionsOf;
    selected := seq(|order|, c requires 0 <= c < |order| => EvenlySpaced(grouped[order[c]], quotas[c]));
    forall c | 0 <= c < |order| ensures selected[c] == Pick(rows, Kept(rows, quotas, c)) {
      PickOfSpread(rows, PositionsOf(rows, order[c]), quotas[c]);
    }
  }

  ghost predicate Selected(rows: seq<Row>, quotas: seq<int>, selected: seq<seq<Row>>)
    requires |quotas| == |CandidateOrder(rows)| && forall c :: 0 <= c < |quotas| ==> quotas[c] >= 0
  {
    |selected| == |quotas| && forall c :: 0 <= c < |quotas| ==> selected[c] == Pick(rows, Kept(rows, quotas, c))
  }

  lemma {:induction false} PickOfSpread(rows: seq<Row>, positions: seq<int>, count: nat)
    requires forall i :: 0 <= i < |positions| ==> 0 <= positions[i] < |rows|
    ensures forall i :: 0 <= i < |EvenlySpaced(positions, count)| ==> 0 <= EvenlySpaced(positions, count)[i] < |rows|
    ensures EvenlySpaced(Pick(rows, positions), count) == Pick(rows, EvenlySpaced(positions, count))
  {
    EvenPositionsSpread(|positions|, count);
  }

  /** The dictionary of groups maps each known candidate to its rows. */
  /** The rows of one candidate, in input order. */
  ghost function GroupOf(rows: seq<Row>, candidate: string): seq<Row> {
    Pick(rows, PositionsOf(rows, candidate))
  }

  ghost predicate Grouped(rows: seq<Row>, order: seq<string>, grouped: map<string, seq<Row>>) {
    && (forall c :: c in grouped <==> c in order)
    && (forall c :: c in order ==> grouped[c] == GroupOf(rows, c))
  }

  lemma {:induction false} GroupsGrow(rows: seq<Row>, i: nat, c: string)
    requires i < |rows|
    ensures GroupOf(rows[..i + 1], c)
         == if rows[i].candidate == c then GroupOf(rows[..i], c) + [rows[i]] else GroupOf(rows[..i], c)
  {
    assert rows[..i + 1][..i] == rows[..i];
  }

  lemma {:induction false} OrderGrows(rows: seq<Row>, i: nat)
    requires i < |rows|
    ensures var before, after := CandidateOrder(rows[..i]), CandidateOrder(rows[..i + 1]);
            after == if rows[i].candidate in before then before else before + [rows[i].candidate]
  {
    assert rows[..i + 1][..i] == rows[..i];
  }

  lemma {:induction false} NoCandidates()
    ensures CandidateOrder([]) == []
  {
  }

  lemma {:induction false} NothingGrouped()
    ensures Grouped([], [], map[])
  {
  }

  /** One more row extends the group of its candidate. */
  lemma {:induction false} GroupExtended(rows: seq<Row>, i: nat, order: seq<string>, grouped: map<string, seq<Row>>)
    requires i < |rows| && order == CandidateOrder(rows[..i]) && Grouped(rows[..i], order, grouped)
    requires rows[i].candidate in grouped
    ensures var c := rows[i].candidate;
            order == CandidateOrder(rows[..i + 1]) &&
            Grouped(rows[..i + 1], order, grouped[c := grouped[c] + [rows[i]]])
  {
    hide CandidateOrder, GroupOf;
    OrderGrows(rows, i);
    var after := grouped[rows[i].candidate := grouped[rows[i].candidate] + [rows[i]]];
    forall c | c in order ensures after[c] == GroupOf(rows[..i + 1], c) {
      GroupsGrow(rows, i, c);
    }
  }

  /** The first row of a candidate opens its group. */
  lemma {:induction false} GroupOpened(rows: seq<Row>, i: nat, order: seq<string>, grouped: map<string, seq<Row>>)
    requires i < |rows| && order == CandidateOrder(rows[..i]) && Grouped(rows[..i], order, grouped)
    requires rows[i].candidate !in grouped
    ensures var c := rows[i].candidate;
            order + [c] == CandidateOrder(rows[..i + 1]) &&
            Grouped(rows[..i + 1], order + [c], grouped[c := [rows[i]]])
  {
    hide CandidateOrder, GroupOf;
    OrderGrows(rows, i);
    NoGroup(rows[..i], rows[i].candidate);
    var next, after := order + [rows[i].candidate], grouped[rows[i].candidate := [rows[i]]];
    forall c | c in next ensures after[c] == GroupOf(rows[..i + 1], c) {
      GroupsGrow(rows, i, c);
    }
  }

  lemma {:induction false} NoGroup(rows: seq<Row>, candidate: string)
    requires candidate !in CandidateOrder(rows)
    ensures GroupOf(rows, candidate) == []
  {
    NoRows(rows, candidate);
  }

  /** The grouping loop: rows by candidate, candidates by first appearance. */
  method GroupRows(rows: seq<Row>) returns (order: seq<string>, grouped: map<string, seq<Row>>)
    ensures order == CandidateOrder(rows) && Grouped(rows, order, grouped)
  {
    hide CandidateOrder, PositionsOf, Pick, Grouped;
    order, grouped := [], map[];
    NothingGrouped();
    assert rows[..0] == [] && CandidateOrder([]) == [] by { NoCandidates(); }
    for i := 0 to |rows|
      invariant order == CandidateOrder(rows[..i])
      invariant Grouped(rows[..i], order, grouped)
    {
      var row := rows[i];
      if row.candidate !in grouped {
        GroupOpened(rows, i, order, grouped);
        order := order + [row.candidate];
        grouped := grouped[row.candidate := [row]];
      } else {
        GroupExtended(rows, i, order, grouped);
        grouped := grouped[row.candidate := grouped[row.candidate] + [row]];
      }
    }
    assert rows[..|rows|] == rows;
  }

  /** The output so far is what the slots so far select. */
  ghost predicate Renders(selected: seq<seq<Row>>, slots: seq<(nat, nat)>, capped: seq<Row>) {
    && |capped| == |slots|
    && forall i :: 0 <= i < |slots| ==>
      slots[i].1 < |selected| && slots[i].0 < |selected[slots[i].1]| && capped[i] == selected[slots[i].1][slots[i].0]
  }

  lemma {:induction false} NothingRendered(selected: seq<seq<Row>>)
    ensures Renders(selected, [], [])
  {
  }

  lemma {:induction false} RendersMore(
    selected: seq<seq<Row>>, slots: seq<(nat, nat)>, capped: seq<Row>, slot: (nat, nat))
    requires Renders(selected, slots, capped) && slot.1 < |selected| && slot.0 < |selected[slot.1]|
    ensures Renders(selected, slots + [slot], capped + [selected[slot.1][slot.0]])
  {
  }

  /** The interleaving loop over columns and candidates. */
  method Interleave(quotas: seq<int>, selected: seq<seq<Row>>) returns (capped: seq<Row>)
    requires |selected| == |quotas| && forall c :: 0 <= c < |quotas| ==> |selected[c]| == quotas[c]
    ensures Renders(selected, Slots(quotas, MaxOf(quotas)), capped)
  {
    hide Renders, MaxOf;
    capped := [];
    var columns := MaxOf(quotas);
    ghost var slots: seq<(nat, nat)> := [];
    NothingRendered(selected);
    for index := 0 to columns
      invariant slots == Slots(quotas, index)
      invariant Renders(selected, slots, capped)
    {
      assert slots == Slots(quotas, index) + Column(quotas, index, 0);
      for c := 0 to |quotas|
        invariant slots == Slots(quotas, index) + Column(quotas, index, c)
        invariant Renders(selected, slots, capped)
      {
        ghost var soFar := Column(quotas, index, c);
        assert Column(quotas, index, c + 1) == if index < quotas[c] then soFar + [(index, c)] else soFar;
        if index < |selected[c]| {
          RendersMore(selected, slots, capped, (index, c));
          capped := capped + [selected[c][index]];
          slots := slots + [(index, c)];
          assert slots == Slots(quotas, index) + (soFar + [(index, c)]);
        }
      }
    }
  }

  lemma {:induction false} SelectedSizes(rows: seq<Row>, quotas: seq<int>, selected: seq<seq<Row>>, max: int)
    requires Fair(GroupSizes(rows, CandidateOrder(rows)), quotas, max)
    requires Selected(rows, quotas, selected)
    ensures forall c :: 0 <= c < |quotas| ==> |selected[c]| == quotas[c]
  {
    assert forall c :: 0 <= c < |quotas| ==> quotas[c] <= GroupSizes(rows, CandidateOrder(rows))[c];
  }

  lemma {:induction false} RendersCap(
    rows: seq<Row>, quotas: seq<int>, selected: seq<seq<Row>>, max: int, capped: seq<Row>)
    requires Fair(GroupSizes(rows, CandidateOrder(rows)), quotas, max)
    requires Selected(rows, quotas, selected)
    requires Renders(selected, Slots(quotas, MaxOf(quotas)), capped)
    ensures capped == Pick(rows, CapPositions(rows, quotas, max))
  {
    hide CandidateOrder, Kept;
    var p := CapPositions(rows, quotas, max);
    forall i | 0 <= i < |capped| ensures capped[i] == rows[p[i]] {
      var slot := Slots(quotas, MaxOf(quotas))[i];
      assert p[i] == CapPosition(rows, quotas, max, i) == Kept(rows, quotas, slot.1)[slot.0];
    }
  }
}
