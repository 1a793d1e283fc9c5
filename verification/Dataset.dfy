/**
 * The candle cache of `src/tradingbot/data/manager.py`: trimming and merging provider frames,
 * finding gaps, and answering requests from the cache or from the providers.
 *
 * Timestamps are integers on the clock of `IntervalDelta` (seconds).
 */
module Dataset {
  import opened Options


  datatype Row = Row(timestamp: int, close: real)

  datatype Gap =
    | MissingAll(start: int, end: int)
    | Leading(start: int, first: int)
    | Between(previous: int, current: int)
    | Trailing(last: int, end: int)

  // ---------------------------------------------------------------- frames

  ghost predicate Sorted(rows: seq<Row>) {
    forall i, j :: 0 <= i < j < |rows| ==> rows[i].timestamp <= rows[j].timestamp
  }

  ghost predicate Within(rows: seq<Row>, start: int, end: int) {
    forall i :: 0 <= i < |rows| ==> start <= rows[i].timestamp <= end
  }

  ghost predicate OnGrid(rows: seq<Row>, interval: int) {
    forall i :: 0 <= i < |rows| ==> GridPoint(rows[i].timestamp, interval)
  }

  /** The frame holds a row stamped `t`. */
  ghost predicate Has(rows: seq<Row>, t: int) {
    exists i :: 0 <= i < |rows| && rows[i].timestamp == t
  }

  function Insert(rows: seq<Row>, row: Row): (r: seq<Row>)
    requires Sorted(rows)
    ensures Sorted(r) && |r| == |rows| + 1
    ensures r[|r| - 1] == row || (rows != [] && r[|r| - 1] == rows[|rows| - 1])
  {
    if rows == [] || rows[|rows| - 1].timestamp <= row.timestamp then
      rows + [row]
    else
      Insert(rows[..|rows| - 1], row) + [rows[|rows| - 1]]
  }

  lemma {:induction false} InsertIsPermutation(rows: seq<Row>, row: Row)
    requires Sorted(rows)
    ensures multiset(Insert(rows, row)) == multiset(rows) + multiset{row}
  {
    if rows == [] || rows[|rows| - 1].timestamp <= row.timestamp {
    } else {
      InsertIsPermutation(rows[..|rows| - 1], row);
      assert rows == rows[..|rows| - 1] + [rows[|rows| - 1]];
    }
  }

  /** `sort_values("timestamp")`, keeping the order of rows with equal stamps. */
  function SortRows(rows: seq<Row>): (r: seq<Row>)
    ensures Sorted(r) && |r| == |rows|
  {
    if rows == [] then [] else Insert(SortRows(rows[..|rows| - 1]), rows[|rows| - 1])
  }

  lemma {:induction false} SortIsPermutation(rows: seq<Row>)
    ensures multiset(SortRows(rows)) == multiset(rows)
  {
    if rows != [] {
      SortIsPermutation(rows[..|rows| - 1]);
      InsertIsPermutation(SortRows(rows[..|rows| - 1]), rows[|rows| - 1]);
      assert rows == rows[..|rows| - 1] + [rows[|rows| - 1]];
    }
  }

  lemma InsertAtEnd(rows: seq<Row>, row: Row)
    requires Sorted(rows) && (rows == [] || rows[|rows| - 1].timestamp <= row.timestamp)
    ensures Insert(rows, row) == rows + [row]
  {
  }

  lemma {:induction false} SortedIsFixed(rows: seq<Row>)
    requires Sorted(rows)
    ensures SortRows(rows) == rows
  {
    if rows != [] {
      var front, last := rows[..|rows| - 1], rows[|rows| - 1];
      SortedIsFixed(front);
      InsertAtEnd(front, last);
      assert rows == front + [last];
    }
  }

  lemma SortKeepsRows(rows: seq<Row>)
    ensures forall r :: r in SortRows(rows) <==> r in rows
  {
    var sorted := SortRows(rows);
    SortIsPermutation(rows);
    forall r ensures r in sorted <==> r in rows {
      assert r in sorted <==> r in multiset(sorted);
      assert r in rows <==> r in multiset(rows);
    }
  }

  function InWindow(rows: seq<Row>, start: int, end: int): seq<Row> {
    if rows == [] then []
    else (if start <= rows[0].timestamp <= end then [rows[0]] else []) + InWindow(rows[1..], start, end)
  }

  lemma {:induction false} InWindowKeeps(rows: seq<Row>, start: int, end: int)
    ensures forall row :: row in InWindow(rows, start, end) <==> row in rows && start <= row.timestamp <= end
  {
    if rows != [] {
      InWindowKeeps(rows[1..], start, end);
      assert rows == [rows[0]] + rows[1..];
    }
  }

  function TrimRange(rows: seq<Row>, start: int, end: int): (r: seq<Row>)
    ensures Sorted(r) && Within(r, start, end)
  {
    assert Within(SortRows(InWindow(rows, start, end)), start, end) by { SortedInWindow(rows, start, end); }
    SortRows(InWindow(rows, start, end))
  }

  lemma SortedInWindow(rows: seq<Row>, start: int, end: int)
    ensures Within(SortRows(InWindow(rows, start, end)), start, end)
  {
    var inside := InWindow(rows, start, end);
    var r := SortRows(inside);
    InWindowKeeps(rows, start, end);
    SortKeepsRows(inside);
    forall i | 0 <= i < |r| ensures start <= r[i].timestamp <= end {
      assert r[i] in inside;
    }
  }

  /** Trimming keeps exactly the rows of the window. */
  lemma TrimKeeps(rows: seq<Row>, start: int, end: int)
    ensures forall row :: row in TrimRange(rows, start, end) <==> row in rows && start <= row.timestamp <= end
  {
    InWindowKeeps(rows, start, end);
    SortKeepsRows(InWindow(rows, start, end));
  }

  lemma {:induction false} AllInside(rows: seq<Row>, start: int, end: int)
    requires Within(rows, start, end)
    ensures InWindow(rows, start, end) == rows
  {
    if rows != [] {
      AllInside(rows[1..], start, end);
      assert rows == [rows[0]] + rows[1..];
    }
  }

  /** Trimming a frame to a window it already lies in does nothing. */
  lemma TrimIsIdempotent(rows: seq<Row>, start: int, end: int)
    requires Sorted(rows) && Within(rows, start, end)
    ensures TrimRange(rows, start, end) == rows
  {
    AllInside(rows, start, end);
    SortedIsFixed(rows);
  }

  // ---------------------------------------------------------------- merging

  /** The first stamp comes again. */
  predicate FirstRepeats(rows: seq<Row>)
    requires rows != []
  {
    exists j :: 0 < j < |rows| && rows[j].timestamp == rows[0].timestamp
  }

  /** `drop_duplicates(subset=["timestamp"], keep="last")`. */
  function KeepLast(rows: seq<Row>): seq<Row> {
    if rows == [] then
      []
    else
      var rest := KeepLast(rows[1..]);
      if FirstRepeats(rows) then rest else [rows[0]] + rest
  }

  function MergeFrames(older: seq<Row>, newer: seq<Row>): seq<Row> {
    if older == [] then newer
    else if newer == [] then older
    else KeepLast(SortRows(older + newer))
  }

  ghost predicate Before(older: seq<Row>, newer: seq<Row>) {
    forall i, j :: 0 <= i < |older| && 0 <= j < |newer| ==> older[i].timestamp < newer[j].timestamp
  }

  ghost predicate StrictlyIncreasing(rows: seq<Row>) {
    forall i, j :: 0 <= i < j < |rows| ==> rows[i].timestamp < rows[j].timestamp
  }

  /** Dropping duplicates leaves one row for each stamp there was. */
  lemma {:induction false} KeepLastIsUnique(rows: seq<Row>)
    requires Sorted(rows)
    ensures StrictlyIncreasing(KeepLast(rows))
    ensures forall t :: Has(KeepLast(rows), t) <==> Has(rows, t)
    ensures forall row :: row in KeepLast(rows) ==> row in rows
  {
    if rows != [] {
      var rest := rows[1..];
      var kept := KeepLast(rest);
      KeepLastIsUnique(rest);
      assert forall j :: 0 < j < |rows| ==> rows[j] == rest[j - 1];
      forall t ensures Has(KeepLast(rows), t) <==> Has(rows, t) {
        HasHead(rows, t);
        if exists j :: 0 < j < |rows| && rows[j].timestamp == rows[0].timestamp {
          var j :| 0 < j < |rows| && rows[j].timestamp == rows[0].timestamp;
          assert rest[j - 1].timestamp == rows[0].timestamp;
        } else {
          HasHead([rows[0]] + kept, t);
          assert ([rows[0]] + kept)[1..] == kept;
        }
      }
      if !exists j :: 0 < j < |rows| && rows[j].timestamp == rows[0].timestamp {
        forall i | 0 <= i < |kept| ensures rows[0].timestamp < kept[i].timestamp {
          assert kept[i] in rest;
          var k :| 0 <= k < |rest| && rest[k] == kept[i];
          assert rows[k + 1] == kept[i];
        }
      }
    }
  }

  lemma HasHead(rows: seq<Row>, t: int)
    requires rows != []
    ensures Has(rows, t) <==> rows[0].timestamp == t || Has(rows[1..], t)
  {
    if Has(rows[1..], t) {
      var i :| 0 <= i < |rows[1..]| && rows[1..][i].timestamp == t;
      assert rows[i + 1].timestamp == t;
    }
    if Has(rows, t) && rows[0].timestamp != t {
      var i :| 0 <= i < |rows| && rows[i].timestamp == t;
      assert rows[1..][i - 1].timestamp == t;
    }
  }

  lemma {:induction false} SortConcatenation(older: seq<Row>, newer: seq<Row>)
    requires Sorted(older) && Sorted(newer) && Before(older, newer)
    ensures SortRows(older + newer) == older + newer
  {
    SortedIsFixed(older + newer);
  }

  lemma FirstRepeatsBefore(older: seq<Row>, newer: seq<Row>)
    requires Before(older, newer) && older != []
    ensures FirstRepeats(older + newer) == FirstRepeats(older)
  {
    var both := older + newer;
    assert forall k :: |older| <= k < |both| ==> both[k] == newer[k - |older|];
    if FirstRepeats(older) {
      var j :| 0 < j < |older| && older[j].timestamp == older[0].timestamp;
      assert both[j] == older[j];
    }
  }

  lemma {:induction false} KeepLastConcatenation(older: seq<Row>, newer: seq<Row>)
    requires Before(older, newer)
    ensures KeepLast(older + newer) == KeepLast(older) + KeepLast(newer)
  {
    if older == [] {
      assert older + newer == newer;
    } else {
      assert (older + newer)[1..] == older[1..] + newer;
      KeepLastConcatenation(older[1..], newer);
      FirstRepeatsBefore(older, newer);
    }
  }

  /** Frames that do not overlap are merged by putting one after the other. */
  lemma MergeIsConcatenation(older: seq<Row>, newer: seq<Row>)
    requires older != [] && newer != []
    requires Sorted(older) && Sorted(newer) && Before(older, newer)
    ensures MergeFrames(older, newer) == KeepLast(older) + KeepLast(newer)
  {
    SortConcatenation(older, newer);
    KeepLastConcatenation(older, newer);
  }

  /** Whatever overlaps, a merged frame has one row for each stamp of either side. */
  lemma MergeIsUnion(older: seq<Row>, newer: seq<Row>)
    requires older != [] && newer != []
    ensures StrictlyIncreasing(MergeFrames(older, newer))
    ensures forall t :: Has(MergeFrames(older, newer), t) <==> Has(older, t) || Has(newer, t)
  {
    var sorted := SortRows(older + newer);
    SortKeepsRows(older + newer);
    KeepLastIsUnique(sorted);
    forall t ensures Has(sorted, t) <==> Has(older, t) || Has(newer, t) {
      if Has(sorted, t) {
        var i :| 0 <= i < |sorted| && sorted[i].timestamp == t;
        assert sorted[i] in older + newer;
        if sorted[i] in older {
          var k :| 0 <= k < |older| && older[k] == sorted[i];
        } else {
          var k :| 0 <= k < |newer| && newer[k] == sorted[i];
        }
      }
      if Has(older, t) {
        var i :| 0 <= i < |older| && older[i].timestamp == t;
        assert older[i] in older + newer;
        var k :| 0 <= k < |sorted| && sorted[k] == older[i];
      }
      if Has(newer, t) {
        var i :| 0 <= i < |newer| && newer[i].timestamp == t;
        assert newer[i] in older + newer;
        var k :| 0 <= k < |sorted| && sorted[k] == newer[i];
      }
    }
  }

  // ---------------------------------------------------------------- gaps

  predicate WideAt(rows: seq<Row>, k: nat, interval: int) {
    0 < k < |rows| && rows[k].timestamp - rows[k - 1].timestamp > interval
  }

  function StepGap(rows: seq<Row>, k: nat, interval: int): seq<Gap> {
    if WideAt(rows, k, interval) then [Between(rows[k - 1].timestamp, rows[k].timestamp)] else []
  }

  function GapsUpTo(rows: seq<Row>, count: nat, start: int, interval: int): seq<Gap>
    requires 0 < count <= |rows|
  {
    if count == 1 then
      if rows[0].timestamp > start then [Leading(start, rows[0].timestamp)] else []
    else
      GapsUpTo(rows, count - 1, start, interval) + StepGap(rows, count - 1, interval)
  }

  function GapList(rows: seq<Row>, start: int, end: int, interval: int): seq<Gap> {
    if rows == [] then
      [MissingAll(start, end)]
    else
      GapsUpTo(rows, |rows|, start, interval)
      + (if rows[|rows| - 1].timestamp < end then [Trailing(rows[|rows| - 1].timestamp, end)] else [])
  }

  method DetectGaps(frame: seq<Row>, start: int, end: int, interval: int) returns (gaps: seq<Gap>)
    ensures gaps == GapList(SortRows(frame), start, end, interval)
  {
    var rows := SortRows(frame);
    if frame == [] {
      return [MissingAll(start, end)];
    }
    gaps := [];
    if rows[0].timestamp > start {
      gaps := gaps + [Leading(start, rows[0].timestamp)];
    }
    for i := 1 to |rows|
      invariant gaps == GapsUpTo(rows, i, start, interval)
    {
      if rows[i].timestamp - rows[i - 1].timestamp > interval {
        gaps := gaps + [Between(rows[i - 1].timestamp, rows[i].timestamp)];
      }
    }
    if rows[|rows| - 1].timestamp < end {
      gaps := gaps + [Trailing(rows[|rows| - 1].timestamp, end)];
    }
  }

  /** The gap says that no row lies at `t`. */
  ghost predicate Covers(gap: Gap, t: int) {
    match gap
    case MissingAll(start, end) => start <= t <= end
    case Leading(start, first) => start <= t < first
    case Between(previous, current) => previous < t < current
    case Trailing(last, end) => last < t <= end
  }

  /** Every reported step is wide. */
  lemma {:induction false} ReportedIsWide(rows: seq<Row>, count: nat, start: int, interval: int, gap: Gap)
      returns (k: nat)
    requires 0 < count <= |rows| && gap in GapsUpTo(rows, count, start, interval)
    ensures || (gap == Leading(start, rows[0].timestamp) && rows[0].timestamp > start)
            || (k < count && WideAt(rows, k, interval) && gap == Between(rows[k - 1].timestamp, rows[k].timestamp))
  {
    if count == 1 {
      k := 0;
    } else if gap in GapsUpTo(rows, count - 1, start, interval) {
      k := ReportedIsWide(rows, count - 1, start, interval, gap);
    } else {
      k := count - 1;
      assert gap in StepGap(rows, k, interval);
    }
  }

  /** Every wide step, and a late start, is reported. */
  lemma {:induction false} WideIsReported(rows: seq<Row>, count: nat, start: int, interval: int, k: nat)
    requires 0 < count <= |rows| && k < count
    ensures WideAt(rows, k, interval)
            ==> Between(rows[k - 1].timestamp, rows[k].timestamp) in GapsUpTo(rows, count, start, interval)
    ensures rows[0].timestamp > start ==> Leading(start, rows[0].timestamp) in GapsUpTo(rows, count, start, interval)
  {
    if count > 1 {
      WideIsReported(rows, count - 1, start, interval, if k == count - 1 then 0 else k);
    }
  }

  ghost predicate NoWideStep(rows: seq<Row>, interval: int) {
    forall k :: 0 < k < |rows| ==> !WideAt(rows, k, interval)
  }

  lemma GapFreeMeans(rows: seq<Row>, start: int, end: int, interval: int)
    requires rows != []
    ensures GapList(rows, start, end, interval) == []
            <==> rows[0].timestamp <= start && NoWideStep(rows, interval) && end <= rows[|rows| - 1].timestamp
  {
    var gaps := GapsUpTo(rows, |rows|, start, interval);
    WideIsReported(rows, |rows|, start, interval, 0);
    forall k | 0 < k < |rows| && WideAt(rows, k, interval) ensures gaps != [] {
      WideIsReported(rows, |rows|, start, interval, k);
    }
    if gaps != [] {
      assert gaps[0] in gaps;
      var k := ReportedIsWide(rows, |rows|, start, interval, gaps[0]);
    }
  }

  /** The last row stamped at or before `t`, when the frame starts by then. */
  lemma {:induction false} LastAtOrBefore(rows: seq<Row>, t: int) returns (k: nat)
    requires rows != [] && rows[0].timestamp <= t
    ensures k < |rows| && rows[k].timestamp <= t
    ensures k + 1 < |rows| ==> t < rows[k + 1].timestamp
  {
    k := 0;
    while k + 1 < |rows| && rows[k + 1].timestamp <= t
      invariant k < |rows| && rows[k].timestamp <= t
    {
      k := k + 1;
    }
  }

  /** Every moment of the window has a row less than one interval old. */
  ghost predicate Covered(rows: seq<Row>, start: int, end: int, interval: int) {
    forall t :: start <= t <= end ==> FreshAt(rows, t, interval)
  }

  ghost predicate FreshAt(rows: seq<Row>, t: int, interval: int) {
    exists i :: 0 <= i < |rows| && t - interval < rows[i].timestamp <= t
  }

  /** A frame without inner gaps that reaches over a window covers it. */
  lemma NoInnerGapCovers(rows: seq<Row>, start: int, end: int, interval: int)
    requires interval > 0 && rows != []
    requires rows[0].timestamp <= start && end <= rows[|rows| - 1].timestamp
    requires NoWideStep(rows, interval)
    ensures Covered(rows, start, end, interval)
  {
    forall t | start <= t <= end ensures FreshAt(rows, t, interval) {
      var k := LastAtOrBefore(rows, t);
      if k + 1 < |rows| {
        assert !WideAt(rows, k + 1, interval);
      }
      assert t - interval < rows[k].timestamp <= t;
    }
  }

  /** A row after row `k - 1` and at most one interval later closes the step to row `k`. */
  lemma NotWide(rows: seq<Row>, k: nat, i: nat, interval: int)
    requires Sorted(rows) && 0 < k < |rows| && i < |rows|
    requires rows[k - 1].timestamp < rows[i].timestamp <= rows[k - 1].timestamp + interval
    ensures !WideAt(rows, k, interval)
  {
    assert k <= i;
  }

  /** A frame trimmed to the window reports no gap exactly when it covers the window and holds its end. */
  lemma GapFreeExactly(rows: seq<Row>, start: int, end: int, interval: int)
    requires interval > 0 && Sorted(rows) && Within(rows, start, end)
    ensures GapList(rows, start, end, interval) == [] <==> Covered(rows, start, end, interval) && Has(rows, end)
  {
    if rows != [] {
      GapFreeMeans(rows, start, end, interval);
    }
    if GapList(rows, start, end, interval) == [] {
      NoInnerGapCovers(rows, start, end, interval);
      assert rows[|rows| - 1].timestamp == end;
    }
    if Covered(rows, start, end, interval) && Has(rows, end) {
      var e :| 0 <= e < |rows| && rows[e].timestamp == end;
      assert FreshAt(rows, start, interval);
      forall k | 0 < k < |rows| ensures !WideAt(rows, k, interval) {
        if rows[k - 1].timestamp + interval <= end {
          assert FreshAt(rows, rows[k - 1].timestamp + interval, interval);
          var i :| 0 <= i < |rows| && rows[k - 1].timestamp < rows[i].timestamp <= rows[k - 1].timestamp + interval;
          NotWide(rows, k, i, interval);
        }
      }
    }
  }

  function Times(interval: int, steps: int): int {
    interval * steps
  }

  /** `t` is a whole number of intervals. */
  ghost predicate GridPoint(t: int, interval: int) {
    exists steps :: Times(interval, steps) == t
  }

  lemma {:induction false} MoreSteps(interval: int, few: int, many: int)
    requires interval > 0 && few < many
    ensures Times(interval, few) + interval <= Times(interval, many)
    decreases many - few
  {
    if few + 1 == many {
      OneStep(interval, few);
    } else {
      MoreSteps(interval, few, many - 1);
      OneStep(interval, many - 1);
    }
  }

  lemma OneStep(interval: int, steps: int)
    ensures Times(interval, steps + 1) == Times(interval, steps) + interval
  {
  }

  lemma SameGridPoint(a: int, t: int, interval: int)
    requires interval > 0 && GridPoint(a, interval) && GridPoint(t, interval)
    requires t - interval < a <= t
    ensures a == t
  {
    var i :| Times(interval, i) == a;
    var j :| Times(interval, j) == t;
    if i < j {
      MoreSteps(interval, i, j);
    }
  }

  lemma NextGridPoint(t: int, interval: int)
    requires GridPoint(t, interval)
    ensures GridPoint(t + interval, interval)
  {
    var j :| Times(interval, j) == t;
    OneStep(interval, j);
  }

  lemma GridPointIsModulo(t: int, interval: int)
    requires interval > 0
    ensures GridPoint(t, interval) <==> t % interval == 0
  {
    if t % interval == 0 {
      assert Times(interval, t / interval) == t;
    }
    if GridPoint(t, interval) {
      var j :| Times(interval, j) == t;
      var q := t / interval;
      assert t == Times(interval, q) + t % interval;
      if q < j {
        MoreSteps(interval, q, j);
      }
    }
  }

  ghost predicate EveryGridPoint(rows: seq<Row>, start: int, end: int, interval: int) {
    forall t {:trigger Has(rows, t)} :: start <= t <= end && GridPoint(t, interval) ==> Has(rows, t)
  }

  /** On grid stamps, covering a window means holding every grid point of it. */
  lemma CoveredHoldsGrid(rows: seq<Row>, start: int, end: int, interval: int)
    requires interval > 0 && OnGrid(rows, interval)
    requires Covered(rows, start, end, interval)
    ensures EveryGridPoint(rows, start, end, interval)
  {
    forall t | start <= t <= end && GridPoint(t, interval) ensures Has(rows, t) {
      assert FreshAt(rows, t, interval);
      var i :| 0 <= i < |rows| && t - interval < rows[i].timestamp <= t;
      SameGridPoint(rows[i].timestamp, t, interval);
    }
  }

  /**
   * On grid stamps, the gap list of a trimmed frame is empty exactly when the window starts and ends on the grid
   * and every grid point of it is there.
   */
  lemma GapFreeOnGrid(rows: seq<Row>, start: int, end: int, interval: int)
    requires interval > 0 && Sorted(rows) && Within(rows, start, end) && OnGrid(rows, interval)
    ensures GapList(rows, start, end, interval) == []
            <==> start <= end && GridPoint(start, interval) && GridPoint(end, interval)
                 && EveryGridPoint(rows, start, end, interval)
  {
    if GapList(rows, start, end, interval) == [] {
      GapFreeMeans(rows, start, end, interval);
      NoInnerGapCovers(rows, start, end, interval);
      CoveredHoldsGrid(rows, start, end, interval);
    }
    if start <= end && GridPoint(start, interval) && GridPoint(end, interval)
        && EveryGridPoint(rows, start, end, interval) {
      FullGridIsGapFree(rows, start, end, interval);
    }
  }

  lemma FullGridIsGapFree(rows: seq<Row>, start: int, end: int, interval: int)
    requires interval > 0 && Sorted(rows) && OnGrid(rows, interval)
    requires start <= end && GridPoint(start, interval) && GridPoint(end, interval)
    requires EveryGridPoint(rows, start, end, interval) && Within(rows, start, end)
    ensures GapList(rows, start, end, interval) == []
  {
    assert Has(rows, start) && Has(rows, end);
    forall k | 0 < k < |rows| ensures !WideAt(rows, k, interval) {
      if rows[k - 1].timestamp + interval <= end {
        NextGridPoint(rows[k - 1].timestamp, interval);
        assert Has(rows, rows[k - 1].timestamp + interval);
        var i :| 0 <= i < |rows| && rows[i].timestamp == rows[k - 1].timestamp + interval;
        NotWide(rows, k, i, interval);
      }
    }
    GapFreeMeans(rows, start, end, interval);
  }

  /** A missing grid point lies in some reported gap. */
  lemma MissingIsCovered(rows: seq<Row>, start: int, end: int, interval: int, t: int) returns (gap: Gap)
    requires interval > 0 && OnGrid(rows, interval)
    requires start <= t <= end && GridPoint(t, interval) && !Has(rows, t)
    ensures gap in GapList(rows, start, end, interval) && Covers(gap, t)
  {
    if rows == [] {
      gap := MissingAll(start, end);
    } else if t < rows[0].timestamp {
      gap := Leading(start, rows[0].timestamp);
      WideIsReported(rows, |rows|, start, interval, 0);
    } else {
      var k := LastAtOrBefore(rows, t);
      assert rows[k].timestamp != t;
      if k + 1 < |rows| {
        if rows[k + 1].timestamp - rows[k].timestamp <= interval {
          SameGridPoint(rows[k].timestamp, t, interval);
        }
        gap := Between(rows[k].timestamp, rows[k + 1].timestamp);
        WideIsReported(rows, |rows|, start, interval, k + 1);
      } else {
        gap := Trailing(rows[k].timestamp, end);
      }
    }
  }

  /** No row lies in a reported gap. */
  lemma CoveredIsMissing(rows: seq<Row>, start: int, end: int, interval: int, gap: Gap, i: nat)
    requires Sorted(rows) && i < |rows|
    requires gap in GapList(rows, start, end, interval)
    ensures !Covers(gap, rows[i].timestamp)
  {
    if gap in GapsUpTo(rows, |rows|, start, interval) {
      var k := ReportedIsWide(rows, |rows|, start, interval, gap);
    }
  }

  /** On grid stamps, a grid point of the window is missing exactly when a reported gap covers it. */
  lemma MissingPointIsReported(rows: seq<Row>, start: int, end: int, interval: int, t: int)
    requires interval > 0 && Sorted(rows) && OnGrid(rows, interval)
    requires start <= t <= end && GridPoint(t, interval)
    ensures !Has(rows, t) <==> exists gap :: gap in GapList(rows, start, end, interval) && Covers(gap, t)
  {
    if Has(rows, t) {
      var i :| 0 <= i < |rows| && rows[i].timestamp == t;
      forall gap | gap in GapList(rows, start, end, interval) ensures !Covers(gap, t) {
        CoveredIsMissing(rows, start, end, interval, gap, i);
      }
    } else {
      var gap := MissingIsCovered(rows, start, end, interval, t);
    }
  }

  // ---------------------------------------------------------------- assembling a dataset

  function CoverageStart(rows: seq<Row>): Option<int> {
    if rows == [] then None else Some(rows[0].timestamp)
  }

  function CoverageEnd(rows: seq<Row>): Option<int> {
    if rows == [] then None else Some(rows[|rows| - 1].timestamp)
  }

  /** In a sorted frame the first and the last row carry the least and the greatest stamp. */
  lemma CoverageIsRange(rows: seq<Row>)
    requires Sorted(rows) && rows != []
    ensures Within(rows, CoverageStart(rows).value, CoverageEnd(rows).value)
    ensures Has(rows, CoverageStart(rows).value) && Has(rows, CoverageEnd(rows).value)
  {
    assert rows[0].timestamp == CoverageStart(rows).value;
    assert rows[|rows| - 1].timestamp == CoverageEnd(rows).value;
  }

  /** The last moment asked of the fallback provider. */
  function FallbackEnd(primary: seq<Row>, end: int, interval: int): int {
    if primary == [] then end else primary[0].timestamp - interval
  }

  /** The rows the fallback provider contributes for a trimmed primary frame. */
  function FallbackRows(primary: seq<Row>, fallback: seq<Row>, start: int, end: int, interval: int): (r: seq<Row>)
    ensures Sorted(r)
  {
    if (primary == [] || primary[0].timestamp > start) && FallbackEnd(primary, end, interval) >= start
    then TrimRange(fallback, start, FallbackEnd(primary, end, interval))
    else []
  }

  /** Fallback rows end at least one interval before the primary rows begin. */
  lemma FallbackPrecedesPrimary(primary: seq<Row>, fallback: seq<Row>, start: int, end: int, interval: int)
    requires interval > 0
    ensures var p := TrimRange(primary, start, end);
            var f := FallbackRows(p, fallback, start, end, interval);
            && Before(f, p)
            && forall i, j :: 0 <= i < |f| && 0 <= j < |p| ==> f[i].timestamp + interval <= p[j].timestamp
  {
  }

  function Assemble(primary: seq<Row>, fallback: seq<Row>, start: int, end: int): seq<Row> {
    TrimRange(if fallback == [] then primary else MergeFrames(fallback, primary), start, end)
  }

  /**
   * The assembled frame is the fallback rows followed by the primary rows: duplicates within one provider are
   * dropped only when both contribute, and trimming the result again changes nothing.
   */
  lemma AssembledShape(primary: seq<Row>, fallback: seq<Row>, start: int, end: int, interval: int)
    requires interval > 0
    ensures var p := TrimRange(primary, start, end);
            var f := FallbackRows(p, fallback, start, end, interval);
            Assemble(p, f, start, end) == if f == [] then p else if p == [] then f else KeepLast(f) + KeepLast(p)
  {
    var p := TrimRange(primary, start, end);
    var f := FallbackRows(p, fallback, start, end, interval);
    FallbackPrecedesPrimary(primary, fallback, start, end, interval);
    assert Within(f, start, end) by {
      if p != [] { assert p[0].timestamp <= end; }
    }
    if f == [] {
      TrimIsIdempotent(p, start, end);
    } else if p == [] {
      TrimIsIdempotent(f, start, end);
    } else {
      MergeIsConcatenation(f, p);
      MergeIsUnion(f, p);
      var merged := MergeFrames(f, p);
      forall i | 0 <= i < |merged| ensures start <= merged[i].timestamp <= end {
        assert Has(merged, merged[i].timestamp);
      }
      TrimIsIdempotent(merged, start, end);
    }
  }

  // ---------------------------------------------------------------- the manager

  /** The supported timeframes, "1m" to "1d", and any other name. */
  datatype Timeframe = M1 | M3 | M5 | M15 | M30 | H1 | H2 | H4 | H8 | H12 | D1 | Other(name: string)

  function IntervalDelta(timeframe: Timeframe): (r: Option<int>)
    ensures r.Some? ==> r.value >= 60 && 86400 % r.value == 0
    ensures r.None? <==> timeframe.Other?
  {
    match timeframe
    case M1 => Some(60)
    case M3 => Some(180)
    case M5 => Some(300)
    case M15 => Some(900)
    case M30 => Some(1800)
    case H1 => Some(3600)
    case H2 => Some(7200)
    case H4 => Some(14400)
    case H8 => Some(28800)
    case H12 => Some(43200)
    case D1 => Some(86400)
    case Other(_) => None
  }

  /** A timeframe of so many minutes, hours or days lasts as long, in seconds. */
  lemma TimeframesLast()
    ensures IntervalDelta(M1) == Some(60) && IntervalDelta(M3) == Some(3 * 60) && IntervalDelta(M5) == Some(5 * 60)
    ensures IntervalDelta(M15) == Some(15 * 60) && IntervalDelta(M30) == Some(30 * 60)
    ensures IntervalDelta(H1) == Some(60 * 60) && IntervalDelta(H2) == Some(2 * 60 * 60)
    ensures IntervalDelta(H4) == Some(4 * 60 * 60) && IntervalDelta(H8) == Some(8 * 60 * 60)
    ensures IntervalDelta(H12) == Some(12 * 60 * 60) && IntervalDelta(D1) == Some(24 * 60 * 60)
  {
  }

  function Upper(symbol: string): (r: string)
    ensures |r| == |symbol|
  {
    seq(|symbol|, i requires 0 <= i < |symbol| =>
      if 'a' <= symbol[i] <= 'z' then (symbol[i] as int - 32) as char else symbol[i])
  }

  datatype Key = Key(symbol: string, timeframe: Timeframe)

  datatype ProviderSummary = ProviderSummary(name: string, start: int, end: int, rows: nat)

  /** One cached dataset: the metadata file and the rows of the data file. */
  datatype Resolution = Resolution(
    key: Key,
    requestedStart: int,
    requestedEnd: int,
    actualStart: Option<int>,
    actualEnd: Option<int>,
    rowCount: nat,
    providers: seq<ProviderSummary>,
    gaps: seq<Gap>,
    rows: seq<Row>)

  /** What the providers answer, and whether comparing them raises. */
  datatype Market = Market(primary: seq<Row>, fallback: seq<Row>, deviates: bool)

  datatype Failure =
    | UnsupportedTimeframe
    | CrossExchangeDeviation
    | Incomplete(actualStart: Option<int>, actualEnd: Option<int>, gaps: seq<Gap>)

  datatype Outcome = Returned(resolution: Resolution) | Raised(failure: Failure)

  function Summary(name: string, rows: seq<Row>): ProviderSummary
    requires rows != []
  {
    ProviderSummary(name, rows[0].timestamp, rows[|rows| - 1].timestamp, |rows|)
  }

  /** A cached record describes its own rows truly. */
  ghost predicate Faithful(record: Resolution) {
    && IntervalDelta(record.key.timeframe).Some?
    && Sorted(record.rows)
    && Within(record.rows, record.requestedStart, record.requestedEnd)
    && record.actualStart == CoverageStart(record.rows)
    && record.actualEnd == CoverageEnd(record.rows)
    && record.rowCount == |record.rows|
    && record.gaps == GapList(record.rows, record.requestedStart, record.requestedEnd,
                              IntervalDelta(record.key.timeframe).value)
  }

  /** The two tests a dataset must pass before it answers a request for a complete window. */
  predicate Reaches(record: Resolution, start: int, end: int) {
    record.actualStart.Some? && record.actualEnd.Some? && record.actualStart.value <= start
      && end <= record.actualEnd.value
  }

  /** A dataset that may answer a request for a complete window. */
  predicate Accepted(record: Resolution, start: int, end: int) {
    Reaches(record, start, end) && record.gaps == []
  }

  /** A faithful gap-free record that reaches over a window covers it, however wide its own request was. */
  lemma ReachingRecordCovers(record: Resolution, start: int, end: int)
    requires Faithful(record) && Accepted(record, start, end)
    ensures Covered(record.rows, start, end, IntervalDelta(record.key.timeframe).value)
  {
    GapFreeMeans(record.rows, record.requestedStart, record.requestedEnd, IntervalDelta(record.key.timeframe).value);
    NoInnerGapCovers(record.rows, start, end, IntervalDelta(record.key.timeframe).value);
  }

  /** The complete dataset: with grid stamps every grid point asked for is in the rows. */
  lemma CompleteOnGrid(record: Resolution, start: int, end: int)
    requires Faithful(record) && Accepted(record, start, end)
    requires OnGrid(record.rows, IntervalDelta(record.key.timeframe).value)
    ensures EveryGridPoint(record.rows, start, end, IntervalDelta(record.key.timeframe).value)
  {
    ReachingRecordCovers(record, start, end);
    CoveredHoldsGrid(record.rows, start, end, IntervalDelta(record.key.timeframe).value);
  }

  /** The rows a request assembles from what the providers answer. */
  function RowsFor(market: Market, useFallback: bool, start: int, end: int, interval: int): seq<Row> {
    var primary := TrimRange(market.primary, start, end);
    var fallback := if useFallback then FallbackRows(primary, market.fallback, start, end, interval) else [];
    Assemble(primary, fallback, start, end)
  }

  lemma {:induction false} KeepLastSubset(rows: seq<Row>)
    ensures forall row :: row in KeepLast(rows) ==> row in rows
  {
    if rows != [] {
      KeepLastSubset(rows[1..]);
    }
  }

  /** Nothing is invented: every row of an answer was sent by a provider and lies in the window. */
  lemma RowsComeFromProviders(market: Market, useFallback: bool, start: int, end: int, interval: int, row: Row)
    requires row in RowsFor(market, useFallback, start, end, interval)
    ensures start <= row.timestamp <= end
    ensures row in market.primary || (useFallback && row in market.fallback)
  {
    var primary := TrimRange(market.primary, start, end);
    var fallback := if useFallback then FallbackRows(primary, market.fallback, start, end, interval) else [];
    var merged := if fallback == [] then primary else MergeFrames(fallback, primary);
    TrimKeeps(merged, start, end);
    TrimKeeps(market.primary, start, end);
    TrimKeeps(market.fallback, start, FallbackEnd(primary, end, interval));
    if fallback != [] && primary != [] {
      KeepLastSubset(SortRows(fallback + primary));
      SortKeepsRows(fallback + primary);
    }
  }

  ghost predicate MarketOnGrid(market: Market, interval: int) {
    OnGrid(market.primary, interval) && OnGrid(market.fallback, interval)
  }

  lemma AnswersStayOnGrid(market: Market, useFallback: bool, start: int, end: int, interval: int)
    requires MarketOnGrid(market, interval)
    ensures OnGrid(RowsFor(market, useFallback, start, end, interval), interval)
  {
    var rows := RowsFor(market, useFallback, start, end, interval);
    forall i | 0 <= i < |rows| ensures GridPoint(rows[i].timestamp, interval) {
      RowsComeFromProviders(market, useFallback, start, end, interval, rows[i]);
    }
  }

  /** The providers a request reports, each with the rows it gave. */
  function ProvidersFor(market: Market, useFallback: bool, start: int, end: int, interval: int): seq<ProviderSummary> {
    var primary := TrimRange(market.primary, start, end);
    var fallback := if useFallback then FallbackRows(primary, market.fallback, start, end, interval) else [];
    (if primary == [] then [] else [Summary("hyperliquid", primary)])
    + (if fallback == [] then [] else [Summary("binance_futures", fallback)])
  }

  /** The record of a sorted frame in its window. */
  function RecordOf(key: Key, start: int, end: int, interval: int, providers: seq<ProviderSummary>,
      rows: seq<Row>): Resolution {
    Resolution(key, start, end, CoverageStart(rows), CoverageEnd(rows), |rows|, providers,
               GapList(rows, start, end, interval), rows)
  }

  /** The frame covers the window and holds rows at both its ends. */
  ghost predicate Complete(rows: seq<Row>, start: int, end: int, interval: int) {
    Covered(rows, start, end, interval) && Has(rows, start) && Has(rows, end)
  }

  /** The record of a sorted frame is faithful, and it is accepted as complete exactly when the frame is. */
  lemma AcceptedExactly(key: Key, start: int, end: int, providers: seq<ProviderSummary>, rows: seq<Row>)
    requires IntervalDelta(key.timeframe).Some? && Sorted(rows) && Within(rows, start, end)
    ensures var interval := IntervalDelta(key.timeframe).value;
            var record := RecordOf(key, start, end, interval, providers, rows);
            Faithful(record) && (Accepted(record, start, end) <==> Complete(rows, start, end, interval))
  {
    GapFreeExactly(rows, start, end, IntervalDelta(key.timeframe).value);
    if rows != [] {
      CoverageIsRange(rows);
    }
  }

  /** What a fetch returns for a request that it does not refuse. */
  function AnswerTo(key: Key, market: Market, useFallback: bool, start: int, end: int): Resolution
    requires IntervalDelta(key.timeframe).Some?
  {
    var interval := IntervalDelta(key.timeframe).value;
    RecordOf(key, start, end, interval, ProvidersFor(market, useFallback, start, end, interval),
             RowsFor(market, useFallback, start, end, interval))
  }

  /** A fresh answer is faithful, has its gaps in the order of its rows, and is accepted exactly when it is complete. */
  lemma FreshRecord(key: Key, market: Market, useFallback: bool, start: int, end: int)
    requires IntervalDelta(key.timeframe).Some?
    ensures var interval, record := IntervalDelta(key.timeframe).value, AnswerTo(key, market, useFallback, start, end);
            && Faithful(record) && record.gaps == GapList(SortRows(record.rows), start, end, interval)
            && (Accepted(record, start, end) <==> Complete(record.rows, start, end, interval))
  {
    var interval := IntervalDelta(key.timeframe).value;
    var rows := RowsFor(market, useFallback, start, end, interval);
    SortedIsFixed(rows);
    AcceptedExactly(key, start, end, ProvidersFor(market, useFallback, start, end, interval), rows);
  }

  /** Every cached row lies on the grid of its timeframe. */
  ghost predicate GridCache(cache: map<Key, Resolution>) {
    forall key :: key in cache ==> StaysOnGrid(cache[key])
  }

  ghost predicate StaysOnGrid(record: Resolution) {
    IntervalDelta(record.key.timeframe).Some? ==> OnGrid(record.rows, IntervalDelta(record.key.timeframe).value)
  }

  /**
   * With providers that send grid stamps, whatever answers a request - a cached record of any window or a fresh one -
   * keeps the cache on the grid and, when accepted as complete, holds every grid point asked for.
   */
  lemma AnswersHoldGrid(cache: map<Key, Resolution>, record: Resolution, market: Market, useFallback: bool,
      start: int, end: int)
    requires IntervalDelta(record.key.timeframe).Some?
        && MarketOnGrid(market, IntervalDelta(record.key.timeframe).value)
    requires GridCache(cache) && Faithful(record)
    requires record in cache.Values || record == AnswerTo(record.key, market, useFallback, start, end)
    ensures GridCache(cache[record.key := record])
    ensures Accepted(record, start, end)
            ==> EveryGridPoint(record.rows, start, end, IntervalDelta(record.key.timeframe).value)
  {
    if record !in cache.Values {
      AnswersStayOnGrid(market, useFallback, start, end, IntervalDelta(record.key.timeframe).value);
    }
    assert StaysOnGrid(record);
    if Accepted(record, start, end) {
      CompleteOnGrid(record, start, end);
    }
  }

  class DataManager {
    var cache: map<Key, Resolution>
    var hasFallbackProvider: bool
    const validateReference: bool

    constructor (validateReference: bool)
      ensures Valid() && cache == map[] && !hasFallbackProvider
      ensures this.validateReference == validateReference
    {
      this.cache := map[];
      this.hasFallbackProvider := false;
      this.validateReference := validateReference;
    }

    /** Every cached record is filed under its own key and is faithful. */
    ghost predicate Valid()
      reads this
    {
      forall key :: key in cache ==> cache[key].key == key && Faithful(cache[key])
    }

    /** The provider half of a fetch: the primary frame, its comparison, and what the fallback adds in front. */
    method Gather(start: int, end: int, interval: int, useFallback: bool, market: Market)
      returns (deviates: bool, rows: seq<Row>, providers: seq<ProviderSummary>)
      modifies this`hasFallbackProvider
      ensures deviates <==> TrimRange(market.primary, start, end) != [] && validateReference && market.deviates
      ensures var primary := TrimRange(market.primary, start, end);
              hasFallbackProvider
              <==> || old(hasFallbackProvider) || (primary != [] && validateReference)
                   || (!deviates && useFallback && (primary == [] || primary[0].timestamp > start))
      ensures !deviates ==> rows == RowsFor(market, useFallback, start, end, interval)
      ensures !deviates ==> providers == ProvidersFor(market, useFallback, start, end, interval)
    {
      deviates, rows, providers := false, [], [];
      var primary := TrimRange(market.primary, start, end);
      if primary != [] {
        providers := providers + [Summary("hyperliquid", primary)];
        if validateReference {
          hasFallbackProvider := true;
          if market.deviates {
            deviates := true;
            return;
          }
        }
      }
      var fallback: seq<Row> := [];
      var needsFallback := primary == [] || primary[0].timestamp > start;
      if needsFallback && useFallback {
        hasFallbackProvider := true;
        var fallbackEnd := FallbackEnd(primary, end, interval);
        if fallbackEnd >= start {
          fallback := TrimRange(market.fallback, start, fallbackEnd);
          if fallback != [] {
            providers := providers + [Summary("binance_futures", fallback)];
          }
        }
      }
      assert useFallback ==> fallback == FallbackRows(primary, market.fallback, start, end, interval);
      rows := Assemble(primary, fallback, start, end);
    }

    /** Writing the data and metadata files of a dataset. */
    method Store(record: Resolution)
      requires Valid() && Faithful(record)
      modifies this`cache
      ensures Valid() && cache == old(cache)[record.key := record]
    {
      cache := cache[record.key := record];
    }

    method FetchDataset(symbol: string, timeframe: Timeframe, start: int, end: int, useFallback: bool,
                        allowPartial: bool, market: Market)
      returns (outcome: Outcome)
      requires Valid()
      modifies this
      ensures Valid()
      ensures outcome.Raised? ==> cache == old(cache)
      ensures outcome.Returned? ==> cache == old(cache)[Key(Upper(symbol), timeframe) := outcome.resolution]
      ensures outcome == Raised(UnsupportedTimeframe) <==> IntervalDelta(timeframe).None?
      ensures outcome == Raised(CrossExchangeDeviation)
              <==> IntervalDelta(timeframe).Some? && TrimRange(market.primary, start, end) != []
                   && validateReference && market.deviates
      ensures outcome.Raised? && outcome.failure.Incomplete?
              ==> !allowPartial && !Complete(RowsFor(market, useFallback, start, end, IntervalDelta(timeframe).value),
                                             start, end, IntervalDelta(timeframe).value)
      ensures outcome.Returned? ==>
                outcome.resolution == AnswerTo(Key(Upper(symbol), timeframe), market, useFallback, start, end)
      ensures outcome.Returned? ==> Faithful(outcome.resolution)
      ensures outcome.Returned? && !allowPartial ==> Accepted(outcome.resolution, start, end)
    {
      var interval := IntervalDelta(timeframe);
      if interval.None? {
        return Raised(UnsupportedTimeframe);
      }
      var deviates, record := Describe(Key(Upper(symbol), timeframe), start, end, useFallback, market);
      if deviates {
        return Raised(CrossExchangeDeviation);
      }
      outcome := Keep(record, start, end, allowPartial);
    }

    /** What the providers give, and the record of it with its gaps. */
    method Describe(key: Key, start: int, end: int, useFallback: bool, market: Market)
      returns (deviates: bool, record: Resolution)
      requires IntervalDelta(key.timeframe).Some?
      modifies this`hasFallbackProvider
      ensures deviates <==> TrimRange(market.primary, start, end) != [] && validateReference && market.deviates
      ensures !deviates ==> record == AnswerTo(key, market, useFallback, start, end) && Faithful(record)
      ensures !deviates ==>
                (Accepted(record, start, end) <==>
                   Complete(RowsFor(market, useFallback, start, end, IntervalDelta(key.timeframe).value),
                            start, end, IntervalDelta(key.timeframe).value))
    {
      var interval := IntervalDelta(key.timeframe).value;
      var rows, providers;
      deviates, rows, providers := Gather(start, end, interval, useFallback, market);
      var gaps := DetectGaps(rows, start, end, interval);
      record := Resolution(key, start, end, CoverageStart(rows), CoverageEnd(rows), |rows|, providers, gaps, rows);
      FreshRecord(key, market, useFallback, start, end);
    }

    /** The end of a fetch: an incomplete dataset is an error unless partial ones are allowed, any other is stored. */
    method Keep(record: Resolution, start: int, end: int, allowPartial: bool) returns (outcome: Outcome)
      requires Valid() && Faithful(record)
      modifies this`cache
      ensures Valid()
      ensures if allowPartial || Accepted(record, start, end)
              then outcome == Returned(record) && cache == old(cache)[record.key := record]
              else outcome == Raised(Incomplete(record.actualStart, record.actualEnd, record.gaps))
                   && cache == old(cache)
    {
      if !allowPartial && !(Reaches(record, start, end) && record.gaps == []) {
        return Raised(Incomplete(record.actualStart, record.actualEnd, record.gaps));
      }
      Store(record);
      return Returned(record);
    }

    method ResolveDataset(symbol: string, timeframe: Timeframe, start: int, end: int, useFallback: bool,
                          forceRefresh: bool, allowPartial: bool, market: Market)
      returns (outcome: Outcome)
      requires Valid()
      modifies this
      ensures Valid()
      ensures outcome.Raised? ==> cache == old(cache)
      ensures outcome.Returned? ==> cache == old(cache)[Key(Upper(symbol), timeframe) := outcome.resolution]
      ensures outcome.Returned? ==>
                && outcome.resolution.key == Key(Upper(symbol), timeframe)
                && Faithful(outcome.resolution)
      ensures outcome.Returned? && !allowPartial ==>
                && Accepted(outcome.resolution, start, end)
                && Covered(outcome.resolution.rows, start, end, IntervalDelta(timeframe).value)
      ensures outcome.Returned? ==>
                || (!forceRefresh && outcome.resolution in old(cache).Values)
                || outcome.resolution == AnswerTo(Key(Upper(symbol), timeframe), market, useFallback, start, end)
      ensures !forceRefresh && Key(Upper(symbol), timeframe) in old(cache)
              && Reaches(old(cache)[Key(Upper(symbol), timeframe)], start, end)
              && (allowPartial || old(cache)[Key(Upper(symbol), timeframe)].gaps == [])
              ==> outcome == Returned(old(cache)[Key(Upper(symbol), timeframe)])
    {
      var key := Key(Upper(symbol), timeframe);
      if !forceRefresh && key in cache {
        var cached := cache[key];
        if cached.actualStart.Some? && cached.actualEnd.Some? {
          if cached.actualStart.value <= start && cached.actualEnd.value >= end && (allowPartial || cached.gaps == []) {
            if cached.gaps == [] {
              ReachingRecordCovers(cached, start, end);
            }
            assert cache[key := cached] == cache;
            return Returned(cached);
          }
        }
      }
      outcome := FetchDataset(symbol, timeframe, start, end, useFallback, allowPartial, market);
      if outcome.Returned? && !allowPartial {
        ReachingRecordCovers(outcome.resolution, start, end);
      }
    }
  }

  // ---------------------------------------------------------------- any sequence of requests

  /** One call of `resolve_dataset`, with what the providers would answer to it. */
  datatype Request = Request(symbol: string, timeframe: Timeframe, start: int, end: int, useFallback: bool,
                             forceRefresh: bool, allowPartial: bool, market: Market)

  function KeyOf(request: Request): Key {
    Key(Upper(request.symbol), request.timeframe)
  }

  /** The providers answer with stamps on the grid of the timeframe asked for. */
  ghost predicate OnItsGrid(request: Request) {
    IntervalDelta(request.timeframe).Some? ==> MarketOnGrid(request.market, IntervalDelta(request.timeframe).value)
  }

  /** One of the first n requests, of the same dataset, was answered with the row by a provider. */
  ghost predicate Sent(requests: seq<Request>, n: nat, key: Key, row: Row) {
    exists i :: 0 <= i < n && i < |requests| && KeyOf(requests[i]) == key
                && (row in requests[i].market.primary || row in requests[i].market.fallback)
  }

  ghost predicate AllSent(requests: seq<Request>, n: nat, record: Resolution) {
    forall row :: row in record.rows ==> Sent(requests, n, record.key, row)
  }

  ghost predicate CacheSent(cache: map<Key, Resolution>, requests: seq<Request>, n: nat) {
    forall key :: key in cache ==> cache[key].key == key && AllSent(requests, n, cache[key])
  }

  /** What the caller of the n-th request may rely on. */
  ghost predicate Serves(requests: seq<Request>, n: nat, outcome: Outcome)
    requires n < |requests|
  {
    outcome.Returned? ==>
      && outcome.resolution.key == KeyOf(requests[n]) && Faithful(outcome.resolution)
      && AllSent(requests, n + 1, outcome.resolution)
      && (!requests[n].allowPartial ==>
            EveryGridPoint(outcome.resolution.rows, requests[n].start, requests[n].end,
                           IntervalDelta(requests[n].timeframe).value))
  }

  lemma SentStays(cache: map<Key, Resolution>, requests: seq<Request>, n: nat)
    requires CacheSent(cache, requests, n)
    ensures CacheSent(cache, requests, n + 1)
  {
    forall key | key in cache ensures AllSent(requests, n + 1, cache[key]) {
      assert AllSent(requests, n, cache[key]);
    }
  }

  /** A fresh answer holds only rows that the providers sent for this request. */
  lemma FreshIsSent(requests: seq<Request>, n: nat, record: Resolution)
    requires n < |requests| && IntervalDelta(requests[n].timeframe).Some?
    requires record == AnswerTo(KeyOf(requests[n]), requests[n].market, requests[n].useFallback, requests[n].start,
        requests[n].end)
    ensures AllSent(requests, n + 1, record)
  {
    var r := requests[n];
    forall row | row in record.rows ensures Sent(requests, n + 1, record.key, row) {
      RowsComeFromProviders(r.market, r.useFallback, r.start, r.end, IntervalDelta(r.timeframe).value, row);
      assert KeyOf(requests[n]) == record.key;
    }
  }

  /** One request, answered from the cache or afresh, keeps what the caches promise and is served. */
  lemma RequestServed(cache: map<Key, Resolution>, after: map<Key, Resolution>, requests: seq<Request>, n: nat,
      outcome: Outcome)
    requires n < |requests| && OnItsGrid(requests[n])
    requires GridCache(cache) && CacheSent(cache, requests, n)
    requires outcome.Raised? ==> after == cache
    requires outcome.Returned? ==>
               && after == cache[KeyOf(requests[n]) := outcome.resolution]
               && outcome.resolution.key == KeyOf(requests[n]) && Faithful(outcome.resolution)
               && (!requests[n].allowPartial ==> Accepted(outcome.resolution, requests[n].start, requests[n].end))
               && (outcome.resolution in cache.Values
                   || outcome.resolution == AnswerTo(KeyOf(requests[n]), requests[n].market, requests[n].useFallback,
                                                     requests[n].start, requests[n].end))
    ensures GridCache(after) && CacheSent(after, requests, n + 1) && Serves(requests, n, outcome)
  {
    SentStays(cache, requests, n);
    if outcome.Returned? {
      var r, record := requests[n], outcome.resolution;
      AnswersHoldGrid(cache, record, r.market, r.useFallback, r.start, r.end);
      if record !in cache.Values {
        FreshIsSent(requests, n, record);
      }
    }
  }

  /** The n-th request. */
  method ServeNext(manager: DataManager, requests: seq<Request>, n: nat) returns (outcome: Outcome)
    requires n < |requests| && OnItsGrid(requests[n])
    requires manager.Valid() && GridCache(manager.cache) && CacheSent(manager.cache, requests, n)
    modifies manager
    ensures manager.Valid() && GridCache(manager.cache) && CacheSent(manager.cache, requests, n + 1)
    ensures Serves(requests, n, outcome)
  {
    var r := requests[n];
    ghost var before := manager.cache;
    outcome := manager.ResolveDataset(r.symbol, r.timeframe, r.start, r.end, r.useFallback, r.forceRefresh,
                                      r.allowPartial, r.market);
    RequestServed(before, manager.cache, requests, n, outcome);
  }

  /**
   * A new manager and any sequence of requests. With providers that send grid stamps, every answer, cached or
   * fresh, holds only rows that a provider sent for the same dataset in this or an earlier request, and an answer
   * that may not be partial holds every grid point asked for.
   */
  method Serve(requests: seq<Request>, validateReference: bool) returns (outcomes: seq<Outcome>)
    requires forall i :: 0 <= i < |requests| ==> OnItsGrid(requests[i])
    ensures |outcomes| == |requests|
    ensures forall i :: 0 <= i < |requests| ==> Serves(requests, i, outcomes[i])
  {
    var manager := new DataManager(validateReference);
    outcomes := [];
    for i := 0 to |requests|
      invariant manager.Valid() && GridCache(manager.cache) && CacheSent(manager.cache, requests, i)
      invariant |outcomes| == i && forall j :: 0 <= j < i ==> Serves(requests, j, outcomes[j])
    {
      var outcome := ServeNext(manager, requests, i);
      outcomes := outcomes + [outcome];
    }
  }
}
