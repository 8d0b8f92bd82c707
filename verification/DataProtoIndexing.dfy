/** Indexing a batch the way Python's tensors and arrays are indexed: by positions that may count from the
    end, by a mask, and by a slice with a step. */
module DataProtoIndexing {
  import opened Options
  import opened Arith
  import opened PythonSlices
  import opened DataProto

  // ------------------------------------------------------------------ positions and masks

  datatype Index = Positions(at: seq<int>) | Mask(keep: seq<bool>)

  predicate InRows(i: int, n: nat) {
    0 <= n + i && i < n
  }

  /** Whether a column of `n` rows can be indexed. */
  predicate Fits(index: Index, n: nat) {
    match index
    case Positions(at) => forall i | 0 <= i < |at| :: InRows(at[i], n)
    case Mask(keep) => |keep| == n
  }

  /** The positions of the mask that are set, in order. */
  function Kept(keep: seq<bool>): (rows: seq<nat>)
    ensures Within(rows, |keep|)
  {
    if keep == [] then []
    else
      var last := |keep| - 1;
      Kept(keep[..last]) + if keep[last] then [last] else []
  }

  function FromEnd(i: int, n: nat): int {
    if i < 0 then n + i else i
  }

  function RowsOf(index: Index, n: nat): (rows: seq<nat>)
    requires Fits(index, n)
    ensures Within(rows, n)
  {
    match index
    case Positions(at) => seq(|at|, i requires 0 <= i < |at| => FromEnd(at[i], n))
    case Mask(keep) => Kept(keep)
  }

  /** Row `r` counted from the start, or from the end. */
  predicate Names(i: int, r: nat, n: nat) {
    i == r || i == r - n
  }

  /** A position fits when it names a row. */
  lemma {:induction false} InRowsMeans(i: int, n: nat)
    ensures InRows(i, n) <==> exists r: nat :: r < n && Names(i, r, n)
  {
    if InRows(i, n) {
      assert Names(i, if i < 0 then n + i else i, n);
    }
  }

  /** A position counts from the start, or from the end if it is negative. */
  lemma {:induction false} PositionsMean(at: seq<int>, n: nat, i: nat)
    requires Fits(Positions(at), n) && i < |at|
    ensures |RowsOf(Positions(at), n)| == |at|
    ensures 0 <= at[i] ==> RowsOf(Positions(at), n)[i] == at[i]
    ensures at[i] < 0 ==> n - RowsOf(Positions(at), n)[i] == -at[i]
  {
  }

  /** `shape[0]` of the index, or the sum of a mask. */
  function CountOf(index: Index): nat {
    match index
    case Positions(at) => |at|
    case Mask(keep) => Trues(keep)
  }

  function Trues(keep: seq<bool>): nat {
    if keep == [] then 0 else Trues(keep[..|keep| - 1]) + if keep[|keep| - 1] then 1 else 0
  }

  function IndexColumns(m: Columns, index: Index): Option<Columns> {
    if forall k | k in m :: Fits(index, |m[k]|) then Some(map k | k in m :: Pick(m[k], RowsOf(index, |m[k]|)))
    else None
  }

  /** `select_idxs`, as it is called: every column is indexed, and the batch size is counted. */
  function SelectIdxs(d: Data, index: Index): Option<Data> {
    var extra := IndexColumns(d.extra, index);
    if extra == None then None
    else
      match d.batch
      case None => Some(Data(None, extra.value, d.meta))
      case Some(b) =>
        var tensors := IndexColumns(b.columns, index);
        if tensors == None then None
        else Some(Data(Some(Batch(CountOf(index), tensors.value)), extra.value, d.meta))
  }

  predicate HasColumn(d: Data) {
    d.extra != map[] || (d.batch.Some? && d.batch.value.columns != map[])
  }

  lemma {:induction false} CountIs(index: Index, n: nat)
    requires Fits(index, n)
    ensures |RowsOf(index, n)| == CountOf(index)
  {
    if index.Mask? {
      KeptCount(index.keep);
    }
  }

  lemma {:induction false} KeptCount(keep: seq<bool>)
    ensures |Kept(keep)| == Trues(keep)
  {
    if keep != [] {
      KeptCount(keep[..|keep| - 1]);
    }
  }

  /** The kept positions ascend, and they are exactly those set in the mask. */
  lemma {:induction false} KeptMeans(keep: seq<bool>)
    ensures forall a, b | 0 <= a < b < |Kept(keep)| :: Kept(keep)[a] < Kept(keep)[b]
    ensures forall i: nat :: i in Kept(keep) <==> i < |keep| && keep[i]
  {
    if keep != [] {
      KeptMeans(keep[..|keep| - 1]);
    }
  }

  lemma {:induction false} IndexIsPick(m: Columns, index: Index, n: nat)
    requires Uniform(m, n)
    ensures Fits(index, n) ==> IndexColumns(m, index) == Some(PickColumns(m, RowsOf(index, n), n))
    ensures IndexColumns(m, index) == None <==> m != map[] && !Fits(index, n)
  {
    hide RowsOf, Fits;
    if m != map[] && !Fits(index, n) {
      var k :| k in m;
      assert !Fits(index, |m[k]|);
    }
    if Fits(index, n) {
      assert IndexColumns(m, index).value == PickColumns(m, RowsOf(index, n), n);
    }
  }

  /** Indexing is selecting rows. It fails exactly when the index does not fit and there is a column to
      notice it. */
  lemma {:induction false} SelectIdxsIsSelect(d: Data, index: Index, n: nat)
    requires HasRows(d, n)
    ensures Fits(index, n) ==> SelectIdxs(d, index) == Some(Select(d, RowsOf(index, n), n))
    ensures SelectIdxs(d, index) == None <==>
            !Fits(index, n) && HasColumn(d)
  {
    hide IndexColumns, RowsOf, Fits, CountOf, PickColumns;
    IndexIsPick(d.extra, index, n);
    if d.batch.Some? {
      IndexIsPick(d.batch.value.columns, index, n);
    }
    if Fits(index, n) {
      CountIs(index, n);
    }
  }

  // ------------------------------------------------------------------ slices with a step

  /** Where a slice starts and where it stops, as `slice.indices` gives them. */
  function First(start: Option<int>, step: int, n: nat): int {
    match start
    case None => if step > 0 then 0 else n - 1
    case Some(i) => if step > 0 then Bound(i, n) else LastBound(i, n)
  }

  function Limit(stop: Option<int>, step: int, n: nat): int {
    match stop
    case None => if step > 0 then n else -1
    case Some(i) => if step > 0 then Bound(i, n) else LastBound(i, n)
  }

  function LastBound(i: int, n: nat): (b: int)
    ensures -1 <= b < n
  {
    if i < 0 then (if n + i < 0 then -1 else n + i) else if i >= n then n - 1 else i
  }

  /** A missing bound leaves nothing out at its end; a bound counts from the start, or from the end if it is
      negative, and one beyond the rows is moved to the end that it is beyond. */
  lemma {:induction false} BoundsMean(i: int, step: int, n: nat)
    requires step != 0
    ensures First(None, step, n) == (if step > 0 then 0 else n - 1)
    ensures Limit(None, step, n) == (if step > 0 then n else -1)
    ensures First(Some(i), step, n) == Limit(Some(i), step, n)
    ensures 0 <= i < n ==> First(Some(i), step, n) == i
    ensures 0 < -i <= n ==> n - First(Some(i), step, n) == -i
    ensures i >= n ==> First(Some(i), step, n) == (if step > 0 then n else n - 1)
    ensures -i > n ==> First(Some(i), step, n) == (if step > 0 then 0 else -1)
  {
  }

  /** `range(a, b, step)`. */
  function Stride(a: int, b: int, step: int): seq<int>
    requires step != 0
    decreases if step > 0 then b - a else a - b
  {
    if (step > 0 && a < b) || (step < 0 && b < a) then [a] + Stride(a + step, b, step) else []
  }

  /** The rows ascend or descend by the step, and none before the limit is left out. */
  lemma {:induction false} StrideAt(a: int, b: int, step: int, k: nat)
    requires step != 0
    ensures k < |Stride(a, b, step)| <==> if step > 0 then a + k * step < b else b < a + k * step
    ensures k < |Stride(a, b, step)| ==> Stride(a, b, step)[k] == a + k * step
    decreases k
  {
    if k > 0 {
      StrideAt(a + step, b, step, k - 1);
      assert a + step + (k - 1) * step == a + k * step by { assert (k - 1) * step == k * step - step; }
      if !((step > 0 && a < b) || (step < 0 && b < a)) {
        StrideEmpty(a, b, step, k);
      }
    }
  }

  lemma {:induction false} StrideEmpty(a: int, b: int, step: int, k: nat)
    requires step > 0 ==> a >= b
    requires step < 0 ==> a <= b
    ensures step > 0 ==> a + k * step >= b
    ensures step < 0 ==> a + k * step <= b
  {
    if step > 0 {
      TimesGrows(0, k, step);
    }
    if step < 0 {
      TimesGrows(0, k, -step);
      assert k * step == -(k * -step);
    }
  }

  function SliceStepRows(start: Option<int>, stop: Option<int>, step: int, n: nat): (rows: seq<nat>)
    requires step != 0
    ensures Within(rows, n)
  {
    var a, b := First(start, step, n), Limit(stop, step, n);
    StrideWithin(a, b, step, n);
    var at := Stride(a, b, step);
    seq(|at|, i requires 0 <= i < |at| && 0 <= at[i] < n => at[i])
  }

  lemma {:induction false} StrideWithin(a: int, b: int, step: int, n: nat)
    requires step > 0 ==> 0 <= a && b <= n
    requires step < 0 ==> a < n && b >= -1
    requires step != 0
    ensures forall i | 0 <= i < |Stride(a, b, step)| :: 0 <= Stride(a, b, step)[i] < n
    decreases if step > 0 then b - a else a - b
  {
    if (step > 0 && a < b) || (step < 0 && b < a) {
      StrideWithin(a + step, b, step, n);
    }
  }

  function StepColumns(m: Columns, start: Option<int>, stop: Option<int>, step: int): Columns
    requires step != 0
  {
    map k | k in m :: Pick(m[k], SliceStepRows(start, stop, step, |m[k]|))
  }

  /** `slice(start, stop, step)`: no step is one. A step of zero is refused by every column and by the
      batch as such; a negative one only by tensors. */
  function SliceStep(d: Data, start: Option<int>, stop: Option<int>, step: Option<int>): Option<Data> {
    var n := if step == None then 1 else step.value;
    if n == 0 then if d.batch == None && d.extra == map[] then Some(d) else None
    else
      match d.batch
      case None => Some(Data(None, StepColumns(d.extra, start, stop, n), d.meta))
      case Some(b) =>
        if n < 0 && b.columns != map[] then None
        else
          var size := |SliceStepRows(start, stop, n, b.size)|;
          Some(Data(Some(Batch(size, StepColumns(b.columns, start, stop, n))),
                    StepColumns(d.extra, start, stop, n), d.meta))
  }

  lemma {:induction false} StepColumnsIsPick(m: Columns, start: Option<int>, stop: Option<int>, step: int, n: nat)
    requires Uniform(m, n) && step != 0
    ensures StepColumns(m, start, stop, step) == PickColumns(m, SliceStepRows(start, stop, step, n), n)
  {
    hide SliceStepRows;
  }

  /** A slice with a step that is not refused selects the rows of the stride. */
  lemma {:induction false} SliceStepIsSelect(d: Data, start: Option<int>, stop: Option<int>, step: int, n: nat)
    requires HasRows(d, n) && step != 0
    requires step > 0 || d.batch == None || d.batch.value.columns == map[]
    ensures SliceStep(d, start, stop, Some(step)) == Some(Select(d, SliceStepRows(start, stop, step, n), n))
  {
    hide SliceStepRows, StepColumns, PickColumns;
    StepColumnsIsPick(d.extra, start, stop, step, n);
    if d.batch.Some? {
      StepColumnsIsPick(d.batch.value.columns, start, stop, step, n);
    }
  }

  lemma {:induction false} StrideByOne(a: int, b: int)
    ensures |Stride(a, b, 1)| == if a <= b then b - a else 0
    ensures forall i | 0 <= i < |Stride(a, b, 1)| :: Stride(a, b, 1)[i] == a + i
    decreases b - a
  {
    if a < b {
      StrideByOne(a + 1, b);
    }
  }

  /** Row k of a slice with a step: the first, and then every step, as long as the limit is not reached. */
  lemma {:induction false} SliceStepAt(start: Option<int>, stop: Option<int>, step: int, n: nat, k: nat)
    requires step != 0
    ensures var rows, a, b := SliceStepRows(start, stop, step, n), First(start, step, n), Limit(stop, step, n);
            && (k < |rows| <==> if step > 0 then a + k * step < b else b < a + k * step)
            && (k < |rows| ==> rows[k] == a + k * step)
  {
    StrideAt(First(start, step, n), Limit(stop, step, n), step, k);
  }

  /** Without a step, and with both bounds, it is the plain slice. */
  lemma {:induction false} NoStepIsSlice(d: Data, start: int, stop: int, n: nat)
    requires HasRows(d, n)
    ensures SliceStep(d, Some(start), Some(stop), None) == Some(Slice(d, start, stop))
  {
    hide Slice, Select, SliceStep, Stride, SliceRows;
    NoStepRows(start, stop, n);
    SliceIsSelect(d, start, stop, n);
    SliceStepIsSelect(d, Some(start), Some(stop), 1, n);
    NoStepIsOne(d, Some(start), Some(stop));
  }

  lemma {:induction false} NoStepIsOne(d: Data, start: Option<int>, stop: Option<int>)
    ensures SliceStep(d, start, stop, None) == SliceStep(d, start, stop, Some(1))
  {
  }

  lemma {:induction false} NoStepRows(start: int, stop: int, n: nat)
    ensures SliceStepRows(Some(start), Some(stop), 1, n) == SliceRows(start, stop, n)
  {
    hide Stride;
    StrideByOne(Bound(start, n), Bound(stop, n));
  }
}
