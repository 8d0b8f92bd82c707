/** Padding a batch and taking the padding off again, changing a batch in place, and chunks of results
    that are still to come. */
module DataProtoPadding {
  import opened Options
  import opened Arith
  import opened Metrics
  import opened DataProto
  import opened DataProtoIndexing

  /** Padding repeats the rows from the first one on. */
  ghost predicate Cyclic(idx: seq<nat>, n: nat) {
    n > 0 && forall j | 0 <= j < |idx| :: idx[j] == j % n
  }

  lemma {:induction false} WholeRangeIsCyclic(n: nat)
    requires n > 0
    ensures Cyclic(Range(0, n), n)
  {
    forall j | 0 <= j < n ensures j % n == j {
      QuotientIs(j, n, 0);
    }
  }

  /** After whole rounds, another start of the rows goes on cyclically. */
  lemma {:induction false} CyclicMore(idx: seq<nat>, n: nat, rounds: nat, take: nat)
    requires Cyclic(idx, n) && |idx| == Rows(rounds, n) && take <= n
    ensures Cyclic(idx + Range(0, take), n)
  {
    forall j | |idx| <= j < |idx| + take ensures j % n == j - |idx| {
      InBlock(j, rounds + 1, n);
    }
  }

  lemma {:induction false} FlatSnoc(lists: seq<seq<nat>>, x: seq<nat>)
    ensures Flat(lists + [x]) == Flat(lists) + x
  {
    assert (lists + [x])[..|lists|] == lists;
  }

  /** What the loop has put together: the data and copies of its rows. */
  ghost predicate Padded(d: Data, n: nat, lists: seq<seq<nat>>, parts: seq<Data>)
    requires HasRows(d, n)
  {
    lists != [] && AllWithin(lists, n) && parts == Selections(d, lists, n) && Cyclic(Flat(lists), n)
  }

  lemma {:induction false} StartPadding(d: Data, n: nat)
    requires HasRows(d, n) && n > 0
    ensures Padded(d, n, [Range(0, n)], [d]) && |Flat([Range(0, n)])| == Rows(1, n)
  {
    FlatOne(Range(0, n));
    WholeRangeIsCyclic(n);
    SelectAll(d, n);
    assert Rows(0, n) == 0;
  }

  lemma {:induction false} PadMore(d: Data, n: nat, lists: seq<seq<nat>>, parts: seq<Data>,
                                   rounds: nat, take: nat)
    requires HasRows(d, n) && Padded(d, n, lists, parts) && |Flat(lists)| == Rows(rounds, n) && take <= n
    ensures Padded(d, n, lists + [Range(0, take)], parts + [Slice(d, 0, take)])
    ensures |Flat(lists + [Range(0, take)])| == Rows(rounds, n) + take
  {
    SliceIsSelect(d, 0, take, n);
    assert SliceRows(0, take, n) == Range(0, take);
    FlatSnoc(lists, Range(0, take));
    CyclicMore(Flat(lists), n, rounds, take);
    SelectionsSnoc(d, lists, Range(0, take), n);
  }

  lemma {:induction false} FinishPadding(d: Data, n: nat, lists: seq<seq<nat>>, parts: seq<Data>)
    requires HasRows(d, n) && Padded(d, n, lists, parts)
    ensures Within(Flat(lists), n) && Concat(parts) == Copied(d, n, Flat(lists), |lists|)
  {
    ConcatSelections(d, lists, n);
  }

  /** The rows `idx`, with the metrics of `k` copies merged. */
  function Copied(d: Data, n: nat, idx: seq<nat>, k: nat): Option<Data>
    requires HasRows(d, n) && Within(idx, n)
  {
    match Remerged(d.meta.metrics, k)
    case None => None
    case Some(metrics) => Some(WithMetrics(Select(d, idx, n), metrics))
  }

  lemma {:induction false} PadToMultiple(n: nat, div: nat)
    requires div > 0 && n % div != 0
    ensures var pad := div - n % div; 0 < pad < div && (n + pad) % div == 0
  {
    var q := n / div;
    assert n == q * div + n % div;
    assert (q + 1) * div == q * div + div;
    QuotientIs(n + (div - n % div), div, q + 1);
  }

  /** `pad_dataproto_to_divisor`: row j of the result is row j % n of the data, and the smallest number
      of rows is added that makes the divisor divide them. If any are added, the metrics of all `k`
      parts are merged: the data and as few copies of its rows as give that many. */
  method PadToDivisor(d: Data, ghost n: nat, rows: nat, div: nat)
    returns (padded: Option<Data>, pad: nat, ghost idx: seq<nat>, ghost k: nat)
    requires HasRows(d, n) && rows == n && div > 0
    ensures pad < div && (n + pad) % div == 0 && (pad == 0 <==> n % div == 0)
    ensures |idx| == n + pad && Within(idx, n)
    ensures n > 0 ==> Cyclic(idx, n)
    ensures pad == 0 ==> padded == Some(d)
    ensures pad > 0 ==> k > 1 && Rows(k - 2, n) < pad <= Rows(k - 1, n) && padded == Copied(d, n, idx, k)
  {
    hide Padded, Cyclic, Select, Flat, Concat, Copied;
    if rows % div != 0 {
      PadToMultiple(rows, div);
      pad := div - rows % div;
      var parts := [d];
      var remaining := pad;
      ghost var lists := [Range(0, n)];
      k := 1;
      assert n > 0 by { QuotientIs(0, div, 0); }
      StartPadding(d, n);
      while remaining > 0
        invariant remaining >= 0 && Padded(d, n, lists, parts) && |Flat(lists)| == n + pad - remaining
        invariant |lists| == k > 0
        invariant remaining > 0 ==> |Flat(lists)| == Rows(k, n)
        invariant remaining == 0 ==> k > 1 && Rows(k - 1, n) < n + pad <= Rows(k, n)
      {
        var take := if remaining <= rows then remaining else rows;
        PadMore(d, n, lists, parts, k, take);
        parts := parts + [Slice(d, 0, take)];
        lists := lists + [Range(0, take)];
        remaining := remaining - take;
        k := k + 1;
      }
      FinishPadding(d, n, lists, parts);
      idx := Flat(lists);
      PaddedIsCyclic(d, n, lists, parts);
      padded := Concat(parts);
    } else {
      assert Within(Range(0, n), n);
      padded, pad, idx, k := Some(d), 0, Range(0, n), 1;
      if n > 0 {
        WholeRangeIsCyclic(n);
      }
    }
  }

  lemma {:induction false} PaddedIsCyclic(d: Data, n: nat, lists: seq<seq<nat>>, parts: seq<Data>)
    requires HasRows(d, n) && Padded(d, n, lists, parts)
    ensures Cyclic(Flat(lists), n)
  {
  }

  /** `unpad_dataproto`. */
  function Unpad(d: Data, pad: nat): Data {
    if pad != 0 then Slice(d, 0, 0 - pad) else d
  }

  /** Unpadding takes off what was padded, whatever the rows were padded with. */
  lemma {:induction false} UnpadUndoesPad(d: Data, n: nat, idx: seq<nat>, pad: nat, metrics: Entry)
    requires HasRows(d, n) && Within(idx, n) && |idx| == n + pad
    requires forall j | 0 <= j < n :: idx[j] == j
    ensures Unpad(WithMetrics(Select(d, idx, n), metrics), pad) == WithMetrics(d, metrics)
  {
    hide Select, Slice, HasRows;
    SelectHasRows(d, idx, n);
    SelectAll(d, n);
    if pad == 0 {
      assert idx == Range(0, n);
    } else {
      SliceIsSelect(Select(d, idx, n), 0, 0 - pad, n + pad);
      assert SliceRows(0, 0 - pad, n + pad) == Range(0, n);
      SelectTwice(d, idx, Range(0, n), n);
      assert Compose(Range(0, n), idx) == Range(0, n);
      SliceWithMetrics(Select(d, idx, n), 0, 0 - pad, metrics);
    }
  }

  lemma {:induction false} SliceWithMetrics(d: Data, start: int, stop: int, metrics: Entry)
    ensures Slice(WithMetrics(d, metrics), start, stop) == WithMetrics(Slice(d, start, stop), metrics)
  {
  }

  /** Padding and then unpadding fails only where metrics cannot be merged, changes nothing but the
      metrics, and gives the data back exactly when no rows are added or there are no metrics to merge. */
  method PadThenUnpad(d: Data, ghost n: nat, rows: nat, div: nat) returns (r: Option<Data>)
    requires HasRows(d, n) && rows == n && div > 0
    ensures r.Some? <==> n % div == 0 || SelfAlike(d.meta.metrics)
    ensures r.Some? ==> r.value == WithMetrics(d, r.value.meta.metrics)
    ensures r == Some(d) <==> n % div == 0 || Plain(d.meta.metrics)
  {
    hide Remerged, Select, Plain, SelfAlike, HasRows, Unpad;
    var padded, pad, idx, k := PadToDivisor(d, n, rows, div);
    if padded == None {
      RemergedExactly(d.meta.metrics, k);
      return None;
    }
    if pad > 0 {
      RemergedExactly(d.meta.metrics, k);
      forall j | 0 <= j < n ensures idx[j] == j {
        QuotientIs(j, n, 0);
      }
      UnpadUndoesPad(d, n, idx, pad, Remerged(d.meta.metrics, k).value);
      WithMetricsIs(d, Remerged(d.meta.metrics, k).value);
    } else {
      UnpadNothing(d);
    }
    r := Some(Unpad(padded.value, pad));
  }

  lemma {:induction false} UnpadNothing(d: Data)
    ensures Unpad(d, 0) == d
  {
  }

  // ------------------------------------------------------------------ changes in place

  class Proto {
    var batch: Option<Batch>
    var extra: Columns
    var meta: Meta

    function View(): Data
      reads this
    {
      Data(batch, extra, meta)
    }

    constructor (d: Data)
      ensures View() == d
    {
      batch, extra, meta := d.batch, d.extra, d.meta;
    }

    /** `padding`: the first or the last row is appended `size` times. Merging the metrics may fail, but
        the meta information stays. Without any column there is no row to miss, and rows of nothing are
        counted. */
    method Padding(ghost n: nat, rows: nat, size: nat, first: bool) returns (ok: bool)
      requires HasRows(View(), n) && rows == n
      modifies this
      ensures ok <==> size == 0
                      || ((n > 0 || !HasColumn(old(View()))) && SelfAlike(old(View()).meta.metrics))
      ensures ok && size > 0 && n > 0 ==>
                var idx := Range(0, n) + Same<nat>(if first then 0 else n - 1, size);
                Within(idx, n) && View() == Select(old(View()), idx, n)
      ensures ok && size > 0 && n == 0 ==> View() == CountRows(old(View()), size)
      ensures !ok || size == 0 ==> View() == old(View())
    {
      hide Select, Concat, Repeat, Remerged, SelfAlike, SelectIdxs, HasColumn;
      if size == 0 {
        return true;
      }
      var d := View();
      var candidate := SelectIdxs(d, Positions([if first then 0 else rows - 1]));
      PaddingRow(d, n, if first then 0 else n - 1);
      if candidate == None {
        return false;
      }
      var part := Repeat(candidate.value, size, true);
      if n > 0 {
        CopiesOfRow(d, n, if first then 0 else n - 1, size);
        TwoParts(d, n, Same<nat>(if first then 0 else n - 1, size));
      } else {
        RowsOfNothing(d, if first then 0 else -1, size);
      }
      var padded := Concat([d, part]);
      RemergedExactly(d.meta.metrics, 2);
      if padded == None {
        return false;
      }
      batch, extra := padded.value.batch, padded.value.extra;
      ok := true;
    }

    /** `reorder`. */
    method Reorder(ghost n: nat, indices: seq<nat>) returns (ok: bool)
      requires HasRows(View(), n) && Within(indices, n)
      modifies this
      ensures ok <==> old(View()).batch.Some?
      ensures View() == if ok then Select(old(View()), indices, n) else old(View())
    {
      if batch == None {
        return false;
      }
      var rows := batch.value.size;
      batch := Some(Batch(|indices|, PickColumns(batch.value.columns, indices, rows)));
      extra := PickColumns(extra, indices, rows);
      ok := true;
    }
  }

  /** Data without columns, with another number of rows of nothing. */
  function CountRows(d: Data, size: nat): Data {
    d.(batch := match d.batch case Some(b) => Some(b.(size := size)) case None => None)
  }

  /** The row to pad with: there is none exactly where there is a column without rows. */
  lemma {:induction false} PaddingRow(d: Data, n: nat, row: int)
    requires HasRows(d, n) && -1 <= row && (n > 0 ==> 0 <= row < n) && (n == 0 ==> row <= 0)
    ensures n > 0 ==> Within([row], n) && SelectIdxs(d, Positions([row])) == Some(Select(d, [row], n))
    ensures n == 0 ==> (SelectIdxs(d, Positions([row])) == None <==> HasColumn(d))
  {
    hide SelectIdxs, Select, HasColumn;
    SelectIdxsIsSelect(d, Positions([row]), n);
    if n > 0 {
      assert RowsOf(Positions([row]), n) == [row];
    } else {
      assert [row][0] == row;
    }
  }

  lemma {:induction false} RowsOfNothing(d: Data, row: int, size: nat)
    requires HasRows(d, 0) && !HasColumn(d)
    ensures SelectIdxs(d, Positions([row])).Some?
    ensures var part := Repeat(SelectIdxs(d, Positions([row])).value, size, true);
            Concat([d, part]) ==
            match Remerged(d.meta.metrics, 2)
            case None => None
            case Some(metrics) => Some(WithMetrics(CountRows(d, size), metrics))
  {
    hide Remerged, JoinedMeta, RowsOf, Fits, RepeatEach, Tile;
    var one := SelectIdxs(d, Positions([row])).value;
    assert one.extra == map[] && one.meta == d.meta;
    var part := Repeat(one, size, true);
    assert part.extra == map[] && part.meta == d.meta;
    var parts := [d, part];
    MetaOfTwo(d, part);
    assert parts[..1] == [d] && [d][..0] == [];
    assert JoinColumns(ExtraParts(parts)) == Some(map[]);
    if d.batch.Some? {
      assert part.batch.value.columns == map[];
      assert JoinColumns(TensorParts(parts)) == Some(map[]);
      assert CountOf(Positions([row])) == 1;
      assert one.batch.value.size == 1 && part.batch.value.size == 1 * size;
      assert TotalSize([d]) == TotalSize([]) + 0;
      assert parts[..|parts| - 1] == [d];
      assert TotalSize(parts) == size;
    }
  }

  lemma {:induction false} MetaOfTwo(d: Data, part: Data)
    requires part.meta == d.meta
    ensures JoinedMeta([d, part]) ==
            match Remerged(d.meta.metrics, 2)
            case None => None
            case Some(metrics) => Some(d.meta.(metrics := metrics))
  {
    hide Merged, JoinMeta;
    var parts := [d, part];
    JoinSameMeta(d.meta.entries, EntryParts(parts));
    assert MetricParts(parts) == Copies(d.meta.metrics, 2);
  }

  lemma {:induction false} CopiesOfRow(d: Data, n: nat, row: nat, size: nat)
    requires HasRows(d, n) && row < n && size > 0
    ensures Within([row], n) && Within(Same<nat>(row, size), n)
    ensures Repeat(Select(d, [row], n), size, true) == Select(d, Same<nat>(row, size), n)
  {
    var one := Select(d, [row], n);
    SelectHasRows(d, [row], n);
    RepeatIsSelect(one, size, true, 1);
    var rows := RepeatRows(1, size, true);
    RepeatRowsLength(1, size, true);
    SelectTwice(d, [row], rows, n);
    assert Compose(rows, [row]) == Same<nat>(row, size) by {
      assert forall i | 0 <= i < |rows| :: rows[i] < 1;
    }
  }

  lemma {:induction false} TwoParts(d: Data, n: nat, more: seq<nat>)
    requires HasRows(d, n) && Within(more, n)
    ensures Within(Range(0, n) + more, n)
    ensures Concat([d, Select(d, more, n)]) == Copied(d, n, Range(0, n) + more, 2)
    ensures Select(d, Range(0, n) + more, n).meta == d.meta
  {
    SelectAll(d, n);
    var lists := [Range(0, n), more];
    FlatOne(Range(0, n));
    FlatSnoc([Range(0, n)], more);
    assert lists == [Range(0, n)] + [more];
    ConcatSelections(d, lists, n);
    assert Selections(d, lists, n) == [d, Select(d, more, n)];
  }

  // ------------------------------------------------------------------ results to come

  /** `futures`, and the chunk to take of their concatenation. */
  datatype Future = Future(futures: seq<Data>, dispatch: Option<Choice>)

  datatype Choice = Choice(i: nat, chunks: nat)

  /** `DataProtoFuture.chunk`. */
  function ChunkFuture(f: Future, chunks: nat): seq<Future> {
    seq(chunks, (i: nat) => Future(f.futures, Some(Choice(i, chunks))))
  }

  /** `get`. */
  method Get(f: Future, ghost n: nat, rows: nat) returns (r: Option<Data>)
    requires Concat(f.futures).Some? ==> HasRows(Concat(f.futures).value, n) && rows == n
    ensures f.dispatch == None ==> r == Concat(f.futures)
    ensures f.dispatch.Some? ==>
              var Choice(i, chunks) := f.dispatch.value;
              && (r.Some? <==> Concat(f.futures).Some? && chunks > 0 && n % chunks == 0 && i < chunks)
              && (r.Some? ==>
                    && AllWithin(Runs(chunks, n / chunks), n)
                    && r.value == Select(Concat(f.futures).value, Runs(chunks, n / chunks)[i], n))
  {
    hide Concat, Runs;
    r := Concat(f.futures);
    if r.Some? && f.dispatch.Some? {
      var Choice(i, chunks) := f.dispatch.value;
      var parts := Chunk(r.value, n, rows, chunks);
      r := if parts.Some? && i < chunks then Some(parts.value[i]) else None;
    }
  }

  /** Chunk i of results to come is chunk i of the results, once they are there. */
  method ChunkThenGet(results: seq<Data>, d: Data, ghost n: nat, rows: nat, chunks: nat, i: nat)
    returns (r: Option<Data>)
    requires Concat(results) == Some(d) && HasRows(d, n) && rows == n
    requires chunks > 0 && n % chunks == 0 && i < chunks
    ensures AllWithin(Runs(chunks, n / chunks), n)
    ensures r == Some(Selections(d, Runs(chunks, n / chunks), n)[i])
  {
    r := Get(ChunkFuture(Future(results, None), chunks)[i], n, rows);
  }

  /** The rows that chunk i' of chunk i of `n` rows has. */
  function ChunkOfChunk(n: nat, c: nat, i: nat, c': nat, i': nat): seq<nat>
    requires c > 0 && c' > 0 && n % c == 0 && (n / c) % c' == 0 && i < c && i' < c'
  {
    RunsCoverAll(n / c, c');
    RunAt(c, n / c, i);
    Compose(Runs(c', n / c / c')[i'], Runs(c, n / c)[i])
  }

  lemma {:induction false} ChunkOfChunkIs(n: nat, c: nat, i: nat, c': nat, i': nat)
    requires c > 0 && c' > 0 && n % c == 0 && (n / c) % c' == 0 && i < c && i' < c'
    ensures n % c' == 0
    ensures |ChunkOfChunk(n, c, i, c', i')| == n / c / c' && |Runs(c', n / c')[i']| == n / c'
    ensures n / c' == c * (n / c / c')
    ensures Within(ChunkOfChunk(n, c, i, c', i'), n) && AllWithin(Runs(c', n / c'), n)
  {
    hide Runs, Rows;
    var size := n / c / c';
    Multiple(n, c);
    Multiple(n / c, c');
    TimesSwap(size, c', c);
    assert size * c' * c == n;
    assert c * size >= 0;
    assert (c * size) * c' == n;
    QuotientIs(n, c', c * size);
    RunAt(c, n / c, i);
    RunAt(c', size, i');
    RunAt(c', n / c', i');
    RunsCoverAll(n, c');
    RunsCoverAll(n, c);
    RunsCoverAll(n / c, c');
  }

  /** The same rows only if the first choice was of everything, or there is nothing to choose from. */
  lemma {:induction false} ChunkOfChunkDiffers(n: nat, c: nat, i: nat, c': nat, i': nat)
    requires c > 0 && c' > 0 && n % c == 0 && (n / c) % c' == 0 && i < c && i' < c'
    ensures n % c' == 0
    ensures Runs(c', n / c')[i'] == ChunkOfChunk(n, c, i, c', i') <==> c == 1 || n == 0
    ensures |Runs(c', n / c')[i']| == |ChunkOfChunk(n, c, i, c', i')| <==> c == 1 || n == 0
  {
    hide Runs, Rows;
    var size := n / c / c';
    ChunkOfChunkIs(n, c, i, c', i');
    if c == 1 {
      RunAt(c, n / c, i);
      FirstRun(n);
      RunAt(c', size, i');
      assert n / c == n;
      assert ChunkOfChunk(n, c, i, c', i') == Runs(c', n / c')[i'];
    } else if n > 0 {
      if size == 0 {
        Multiple(n, c');
        assert false;
      }
      TimesGrows(2, c, size);
    }
  }

  lemma {:induction false} FirstRun(n: nat)
    ensures Rows(0, n) == 0
  {
  }

  /** Where there are rows, selections of different lengths are different data. */
  lemma {:induction false} LengthsShow(d: Data, n: nat, a: seq<nat>, b: seq<nat>)
    requires HasRows(d, n) && Within(a, n) && Within(b, n) && n > 0 && |a| != |b|
    ensures Select(d, a, n) != Select(d, b, n)
  {
    if d.batch == None {
      var k :| k in d.extra;
      assert |Select(d, a, n).extra[k]| == |a|;
      assert |Select(d, b, n).extra[k]| == |b|;
    }
  }

  /** A chunk of a chunk of results to come forgets the first choice: it is a chunk of all the results,
      and so the chunk of the chunk exactly when the first choice was of everything, or there are no
      rows. */
  method SecondChunkForgetsFirst(results: seq<Data>, d: Data, ghost n: nat, rows: nat,
                                 c: nat, i: nat, c': nat, i': nat) returns (r: Option<Data>)
    requires Concat(results) == Some(d) && HasRows(d, n) && rows == n
    requires c > 0 && c' > 0 && n % c == 0 && (n / c) % c' == 0 && i < c && i' < c'
    ensures AllWithin(Runs(c, n / c), n) && AllWithin(Runs(c', n / c / c'), n / c)
    ensures HasRows(Select(d, Runs(c, n / c)[i], n), n / c)
    ensures r == Some(Select(Select(d, Runs(c, n / c)[i], n), Runs(c', n / c / c')[i'], n / c))
            <==> c == 1 || n == 0
    ensures n % c' == 0 && AllWithin(Runs(c', n / c'), n) && r == Some(Select(d, Runs(c', n / c')[i'], n))
  {
    hide Concat, Runs, Select, HasRows, Rows;
    ChunkOfChunkIs(n, c, i, c', i');
    ChunkOfChunkDiffers(n, c, i, c', i');
    RunsCoverAll(n, c);
    RunsCoverAll(n, c');
    RunsCoverAll(n / c, c');
    RunAt(c, n / c, i);
    SelectHasRows(d, Runs(c, n / c)[i], n);
    SelectTwice(d, Runs(c, n / c)[i], Runs(c', n / c / c')[i'], n);
    if c != 1 && n > 0 {
      LengthsShow(d, n, Runs(c', n / c')[i'], ChunkOfChunk(n, c, i, c', i'));
    }
    var once := ChunkFuture(Future(results, None), c)[i];
    r := Get(ChunkFuture(once, c')[i'], n, rows);
  }

  /** Two rows in two chunks: the only chunk of the first chunk has both rows, not one. */
  method BothRowsInsteadOfOne(x: int, y: int, results: seq<Data>, d: Data) returns (r: Option<Data>)
    requires d == Data(None, map["uid" := [x, y]], Meta(map[], Absent)) && Concat(results) == Some(d)
    ensures HasRows(d, 2) && Within([0], 2)
    ensures r == Some(d) && Select(d, [0], 2) != d
  {
    hide Concat, Runs, Select;
    assert "uid" in d.extra;
    assert |d.extra["uid"]| == 2;
    assert 2 % 2 == 0 && 2 / 2 == 1 && 1 % 1 == 0 && 2 / 1 == 2;
    r := SecondChunkForgetsFirst(results, d, 2, 2, 2, 0, 1, 0);
    RunAt(1, 2, 0);
    FirstRun(2);
    SelectAll(d, 2);
    LengthsShow(d, 2, [0], Range(0, 2));
  }
}
