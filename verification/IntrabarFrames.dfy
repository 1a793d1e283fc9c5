/** The partial-bar frames on which the engines rerun the classifier: built by filtering the whole
    history in the reference engine, from pre-grouped children in the zoom engine. */
module IntrabarFrames {
  import Decimals

  datatype Row = Row(timestamp: int, open: real, high: real, low: real, close: real, volume: real, symbol: string)

  /** The start of the base bucket a timestamp falls in. */
  function Bucket(timestamp: int, width: nat): (b: int)
    requires width > 0
    ensures b <= timestamp < b + width && b % width == 0
  {
    Decimals.DivisionBounds(timestamp, width);
    MultipleIsDivisible(timestamp / width, width);
    (timestamp / width) * width
  }

  lemma MultipleIsDivisible(q: int, width: nat)
    requires width > 0
    ensures (q * width) % width == 0
  {
    var n := q * width;
    Decimals.QuotientUnique(n, q, width);
    assert n % width == n - (n / width) * width;
  }

  function Keep(rows: seq<Row>, keep: Row -> bool): seq<Row> {
    if rows == [] then []
    else Keep(rows[..|rows| - 1], keep) + if keep(rows[|rows| - 1]) then [rows[|rows| - 1]] else []
  }

  /** The rows of one bucket, as grouping by bucket collects them. */
  function Children(rows: seq<Row>, bucket: int, width: nat): seq<Row>
    requires width > 0
  {
    Keep(rows, (r: Row) => Bucket(r.timestamp, width) == bucket)
  }

  function Highest(rows: seq<Row>): (h: real)
    requires rows != []
    ensures exists i :: 0 <= i < |rows| && rows[i].high == h
    ensures forall i :: 0 <= i < |rows| ==> rows[i].high <= h
  {
    if |rows| == 1 then rows[0].high
    else
      var rest, last := Highest(rows[..|rows| - 1]), rows[|rows| - 1].high;
      if last > rest then last else rest
  }

  function Lowest(rows: seq<Row>): (l: real)
    requires rows != []
    ensures exists i :: 0 <= i < |rows| && rows[i].low == l
    ensures forall i :: 0 <= i < |rows| ==> rows[i].low >= l
  {
    if |rows| == 1 then rows[0].low
    else
      var rest, last := Lowest(rows[..|rows| - 1]), rows[|rows| - 1].low;
      if last < rest then last else rest
  }

  function Volume(rows: seq<Row>): real {
    if rows == [] then 0.0 else Volume(rows[..|rows| - 1]) + rows[|rows| - 1].volume
  }

  /** Volumes add up, however the rows are split. */
  lemma {:induction false} VolumeAdds(a: seq<Row>, b: seq<Row>)
    ensures Volume(a + b) == Volume(a) + Volume(b)
    ensures |a| == 1 ==> Volume(a) == a[0].volume
  {
    if b == [] {
      assert a + b == a;
    } else {
      VolumeAdds(a, b[..|b| - 1]);
      assert (a + b)[..|a + b| - 1] == a + b[..|b| - 1];
    }
    if |a| == 1 {
      assert a[..0] == [] && Volume([]) == 0.0;
    }
  }

  /** One bar out of the rows seen of it. */
  function PartialBar(rows: seq<Row>, bucket: int): Row
    requires rows != []
  {
    var last := rows[|rows| - 1];
    Row(bucket, rows[0].open, Highest(rows), Lowest(rows), last.close, Volume(rows), last.symbol)
  }

  /** The bar that the rows of one bucket make: stamped with it, opening with the first row and closing with the
      last, as far up and down as any row went, and with all their volume. */
  ghost predicate IsBarOf(bar: Row, rows: seq<Row>, bucket: int)
    requires rows != []
  {
    && bar.timestamp == bucket && bar.open == rows[0].open
    && bar.close == rows[|rows| - 1].close && bar.symbol == rows[|rows| - 1].symbol
    && (exists i :: 0 <= i < |rows| && rows[i].high == bar.high)
    && (exists i :: 0 <= i < |rows| && rows[i].low == bar.low)
    && (forall i :: 0 <= i < |rows| ==> rows[i].low >= bar.low && rows[i].high <= bar.high)
    && bar.volume == Volume(rows)
  }

  ghost predicate Sorted(rows: seq<Row>) {
    forall i, j :: 0 <= i <= j < |rows| ==> rows[i].timestamp <= rows[j].timestamp
  }

  ghost predicate StrictlySorted(rows: seq<Row>) {
    forall i, j :: 0 <= i < j < |rows| ==> rows[i].timestamp < rows[j].timestamp
  }

  lemma {:induction false} KeepContains(rows: seq<Row>, keep: Row -> bool, i: nat)
    requires i < |rows| && keep(rows[i])
    ensures rows[i] in Keep(rows, keep)
  {
    if i < |rows| - 1 {
      KeepContains(rows[..|rows| - 1], keep, i);
    }
  }

  lemma {:induction false} KeepAgrees(rows: seq<Row>, f: Row -> bool, g: Row -> bool)
    requires forall r :: r in rows ==> f(r) == g(r)
    ensures Keep(rows, f) == Keep(rows, g)
  {
    if rows != [] {
      KeepAgrees(rows[..|rows| - 1], f, g);
    }
  }

  lemma {:induction false} KeepPrefix(rows: seq<Row>, keep: Row -> bool, n: nat)
    requires n <= |rows|
    ensures Keep(rows[..n], keep) <= Keep(rows, keep)
  {
    if n < |rows| {
      KeepPrefix(rows[..|rows| - 1], keep, n);
      assert rows[..|rows| - 1][..n] == rows[..n];
    } else {
      assert rows[..n] == rows;
    }
  }

  /** `_build_intrabar_base_frame`: the closed base bars before the current bucket, and the bucket's
      rows so far as a partial bar. */
  function ReferenceFrame(base: seq<Row>, seen: seq<Row>, width: nat): seq<Row>
    requires seen != [] && width > 0
  {
    var bucket := Bucket(seen[|seen| - 1].timestamp, width);
    var current := Keep(seen, (r: Row) => r.timestamp >= bucket);
    KeepContains(seen, (r: Row) => r.timestamp >= bucket, |seen| - 1);
    Keep(base, (r: Row) => r.timestamp < bucket) + [PartialBar(current, bucket)]
  }

  /** The frame of `_intrabar_step`: the base bars before the current one, and its first k + 1
      children as a partial bar. */
  function ZoomFrame(base: seq<Row>, index: nat, children: seq<Row>, k: nat): seq<Row>
    requires index < |base| && k < |children|
  {
    base[..index] + [PartialBar(children[..k + 1], base[index].timestamp)]
  }

  /** What the classifier sees at a child of a base bar: the closed bars before it, and a last bar made of the
      children up to that one. */
  lemma FrameIsClosedBarsAndChildren(base: seq<Row>, index: nat, children: seq<Row>, k: nat)
    requires index < |base| && k < |children|
    ensures var frame := ZoomFrame(base, index, children, k);
            && |frame| == index + 1 && frame[..index] == base[..index]
            && IsBarOf(frame[index], children[..k + 1], base[index].timestamp)
  {
    assert children[..k + 1] != [];
  }

  lemma {:induction false} ClosedBarsArePrefix(base: seq<Row>, index: nat, bucket: int)
    requires StrictlySorted(base) && index <= |base|
    requires forall i :: 0 <= i < |base| ==> (base[i].timestamp < bucket <==> i < index)
    ensures Keep(base, (r: Row) => r.timestamp < bucket) == base[..index]
    decreases |base|
  {
    if base != [] {
      var init := base[..|base| - 1];
      ClosedBarsArePrefix(init, if index == |base| then index - 1 else index, bucket);
      if index == |base| {
        assert base[..index] == init[..index - 1] + [base[|base| - 1]];
      } else {
        assert base[..index] == init[..index];
      }
    }
  }

  /** Refinement: for every execution row that falls in a base bar, the zoom engine's frame at the
      corresponding child is the reference engine's frame at the row. */
  lemma FramesAgree(base: seq<Row>, execution: seq<Row>, width: nat, index: nat, i: nat) returns (k: nat)
    requires width > 0 && Sorted(execution) && StrictlySorted(base)
    requires i < |execution| && index < |base| && base[index].timestamp == Bucket(execution[i].timestamp, width)
    ensures var children := Children(execution, base[index].timestamp, width);
            && k < |children| && children[k] == execution[i]
            && k + 1 == |Children(execution[..i + 1], base[index].timestamp, width)|
            && ZoomFrame(base, index, children, k) == ReferenceFrame(base, execution[..i + 1], width)
  {
    var bucket, seen := base[index].timestamp, execution[..i + 1];
    var sameBucket := (r: Row) => Bucket(r.timestamp, width) == bucket;
    var fromBucket := (r: Row) => r.timestamp >= bucket;
    var soFar := Children(seen, bucket, width);
    assert seen[..i] + [execution[i]] == seen;
    k := |soFar| - 1;
    KeepPrefix(execution, sameBucket, i + 1);
    forall r | r in seen ensures sameBucket(r) == fromBucket(r) {
      var j :| 0 <= j < |seen| && seen[j] == r;
      assert execution[j].timestamp <= execution[i].timestamp;
      SameBucket(r.timestamp, execution[i].timestamp, width);
    }
    KeepAgrees(seen, sameBucket, fromBucket);
    ClosedBarsArePrefix(base, index, bucket);
    var children := Children(execution, bucket, width);
    assert children[..k + 1] == soFar;
  }

  lemma SameBucket(timestamp: int, later: int, width: nat)
    requires width > 0 && timestamp <= later
    ensures Bucket(timestamp, width) == Bucket(later, width) <==> timestamp >= Bucket(later, width)
  {
    if timestamp >= Bucket(later, width) {
      Decimals.QuotientUnique(timestamp, later / width, width);
    }
  }

  /** Every child of a bar is reached so: its frame is the reference frame at some execution row. */
  lemma {:induction false} EveryChildIsARow(execution: seq<Row>, bucket: int, width: nat, k: nat) returns (i: nat)
    requires width > 0 && k < |Children(execution, bucket, width)|
    ensures i < |execution| && Bucket(execution[i].timestamp, width) == bucket
    ensures k + 1 == |Children(execution[..i + 1], bucket, width)|
    decreases |execution|
  {
    var n := |execution|;
    var init := execution[..n - 1];
    if k < |Children(init, bucket, width)| {
      i := EveryChildIsARow(init, bucket, width, k);
      assert init[..i + 1] == execution[..i + 1];
    } else {
      i := n - 1;
      assert execution[..n] == execution;
    }
  }

  /** The whole claim from the zoom engine's side: whatever child it looks at, the frame it hands the
      classifier is one the reference engine would have built, from the same row. */
  lemma ZoomRefinesReference(base: seq<Row>, execution: seq<Row>, width: nat, index: nat, k: nat) returns (i: nat)
    requires width > 0 && Sorted(execution) && StrictlySorted(base) && index < |base|
    requires k < |Children(execution, base[index].timestamp, width)|
    ensures i < |execution| && execution[i] == Children(execution, base[index].timestamp, width)[k]
    ensures ZoomFrame(base, index, Children(execution, base[index].timestamp, width), k)
            == ReferenceFrame(base, execution[..i + 1], width)
  {
    i := EveryChildIsARow(execution, base[index].timestamp, width, k);
    var k' := FramesAgree(base, execution, width, index, i);
  }

  /** `_group_execution_rows`. */
  method GroupExecutionRows(rows: seq<Row>, width: nat) returns (grouped: map<int, seq<Row>>)
    requires width > 0
    ensures forall b :: b in grouped ==> grouped[b] == Children(rows, b, width) && grouped[b] != []
    ensures forall b :: b !in grouped ==> Children(rows, b, width) == []
  {
    grouped := map[];
    for i := 0 to |rows|
      invariant forall b :: b in grouped ==> grouped[b] == Children(rows[..i], b, width) && grouped[b] != []
      invariant forall b :: b !in grouped ==> Children(rows[..i], b, width) == []
    {
      assert rows[..i + 1][..i] == rows[..i];
      var parent := Bucket(rows[i].timestamp, width);
      grouped := grouped[parent := (if parent in grouped then grouped[parent] else []) + [rows[i]]];
    }
    assert rows[..|rows|] == rows;
  }

  /** The per-bar memo of `_intrabar_step`: a frame and what the classifier says on it. */
  class StepCache<Signal> {
    const base: seq<Row>
    const index: nat
    const children: seq<Row>
    const evaluate: seq<Row> -> Signal
    var cache: map<nat, (seq<Row>, Signal)>

    ghost predicate Valid()
      reads this
    {
      && index < |base|
      && forall k :: k in cache ==>
           && k < |children|
           && cache[k] == (ZoomFrame(base, index, children, k), evaluate(ZoomFrame(base, index, children, k)))
    }

    constructor (base: seq<Row>, index: nat, children: seq<Row>, evaluate: seq<Row> -> Signal)
      requires index < |base|
      ensures Valid() && cache == map[]
      ensures this.base == base && this.index == index && this.children == children && this.evaluate == evaluate
    {
      this.base, this.index, this.children, this.evaluate := base, index, children, evaluate;
      cache := map[];
    }

    /** Remembered or not, the step is the classifier's answer on the zoom frame. */
    method IntrabarStep(k: nat) returns (frame: seq<Row>, signal: Signal)
      requires Valid() && k < |children|
      modifies this
      ensures Valid()
      ensures frame == ZoomFrame(base, index, children, k) && signal == evaluate(frame)
      ensures cache == old(cache)[k := (frame, signal)]
    {
      if k in cache {
        frame, signal := cache[k].0, cache[k].1;
        return;
      }
      frame := base[..index] + [PartialBar(children[..k + 1], base[index].timestamp)];
      signal := evaluate(frame);
      cache := cache[k := (frame, signal)];
    }
  }
}
