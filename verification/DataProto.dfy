/** Batches stored by column: each operation on rows applies one row map to all columns. */
module DataProto {
  import opened PythonSlices
  import opened Options
  import opened Arith
  import opened Metrics

  type Columns = map<string, seq<int>>

  /** The tensors, with their batch size. */
  datatype Batch = Batch(size: nat, columns: Columns)

  /** `meta_info`, with the entry "metrics" apart. */
  datatype Meta = Meta(entries: map<string, int>, metrics: Entry)

  /** `batch`, `non_tensor_batch` and `meta_info`. */
  datatype Data = Data(batch: Option<Batch>, extra: Columns, meta: Meta)

  function WithMetrics(d: Data, metrics: Entry): Data {
    d.(meta := d.meta.(metrics := metrics))
  }

  predicate Uniform(m: Columns, n: nat) {
    forall k | k in m :: |m[k]| == n
  }

  /** The data has `n` rows: what `len` gives and what every column agrees with. */
  predicate HasRows(d: Data, n: nat) {
    && (match d.batch
        case Some(b) => b.size == n && Uniform(b.columns, n)
        case None => d.extra == map[] ==> n == 0)
    && Uniform(d.extra, n)
  }

  // ------------------------------------------------------------------ row maps

  predicate Within(idx: seq<nat>, n: nat) {
    forall i | 0 <= i < |idx| :: idx[i] < n
  }

  function Pick(c: seq<int>, idx: seq<nat>): seq<int>
    requires Within(idx, |c|)
  {
    seq(|idx|, i requires 0 <= i < |idx| => c[idx[i]])
  }

  function PickColumns(m: Columns, idx: seq<nat>, n: nat): Columns
    requires Uniform(m, n) && Within(idx, n)
  {
    map k | k in m :: Pick(m[k], idx)
  }

  /** `select_idxs`: the rows `idx`, of every column. */
  function Select(d: Data, idx: seq<nat>, n: nat): Data
    requires HasRows(d, n) && Within(idx, n)
  {
    Data(match d.batch case Some(b) => Some(Batch(|idx|, PickColumns(b.columns, idx, n))) case None => None,
         PickColumns(d.extra, idx, n), d.meta)
  }

  lemma {:induction false} SelectHasRows(d: Data, idx: seq<nat>, n: nat)
    requires HasRows(d, n) && Within(idx, n)
    ensures HasRows(Select(d, idx, n), |idx|)
  {
    assert Select(d, idx, n).extra.Keys == d.extra.Keys;
    assert d.extra == map[] <==> d.extra.Keys == {};
    assert |idx| > 0 ==> idx[0] < n;
  }

  /** The data as a list of rows. */
  datatype Row = Row(tensors: map<string, int>, objects: map<string, int>)

  function Cells(m: Columns, n: nat, i: nat): map<string, int>
    requires Uniform(m, n) && i < n
  {
    map k | k in m :: m[k][i]
  }

  function RowAt(d: Data, n: nat, i: nat): Row
    requires HasRows(d, n) && i < n
  {
    Row(match d.batch case Some(b) => Cells(b.columns, n, i) case None => map[], Cells(d.extra, n, i))
  }

  /** Row k of a selection is row idx[k] of the data, as a whole. */
  lemma {:induction false} SelectRows(d: Data, idx: seq<nat>, n: nat, k: nat)
    requires HasRows(d, n) && Within(idx, n) && k < |idx|
    ensures HasRows(Select(d, idx, n), |idx|)
    ensures RowAt(Select(d, idx, n), |idx|, k) == RowAt(d, n, idx[k])
  {
    SelectHasRows(d, idx, n);
  }

  function Compose(outer: seq<nat>, inner: seq<nat>): seq<nat>
    requires Within(outer, |inner|)
  {
    seq(|outer|, i requires 0 <= i < |outer| => inner[outer[i]])
  }

  lemma {:induction false} PickTwice(m: Columns, inner: seq<nat>, outer: seq<nat>, n: nat)
    requires Uniform(m, n) && Within(inner, n) && Within(outer, |inner|)
    ensures Within(Compose(outer, inner), n)
    ensures PickColumns(PickColumns(m, inner, n), outer, |inner|) == PickColumns(m, Compose(outer, inner), n)
  {
    forall k | k in m ensures Pick(Pick(m[k], inner), outer) == Pick(m[k], Compose(outer, inner)) {
    }
  }

  lemma {:induction false} SelectTwice(d: Data, inner: seq<nat>, outer: seq<nat>, n: nat)
    requires HasRows(d, n) && Within(inner, n) && Within(outer, |inner|)
    ensures HasRows(Select(d, inner, n), |inner|) && Within(Compose(outer, inner), n)
    ensures Select(Select(d, inner, n), outer, |inner|) == Select(d, Compose(outer, inner), n)
  {
    SelectHasRows(d, inner, n);
    PickTwice(d.extra, inner, outer, n);
    if d.batch.Some? {
      PickTwice(d.batch.value.columns, inner, outer, n);
    }
  }

  function Range(from: nat, n: nat): (r: seq<nat>)
    ensures |r| == n && forall i | 0 <= i < n :: r[i] == from + i
  {
    seq(n, i => from + i)
  }

  lemma {:induction false} SelectAll(d: Data, n: nat)
    requires HasRows(d, n)
    ensures Select(d, Range(0, n), n) == d
  {
    forall c: seq<int> | |c| == n ensures Pick(c, Range(0, n)) == c {
    }
    assert PickColumns(d.extra, Range(0, n), n) == d.extra;
    if d.batch.Some? {
      assert PickColumns(d.batch.value.columns, Range(0, n), n) == d.batch.value.columns;
    }
  }

  // ------------------------------------------------------------------ slices

  function SliceRows(start: int, stop: int, n: nat): seq<nat> {
    var a, b := Bound(start, n), Bound(stop, n);
    if a <= b then Range(a, b - a) else []
  }

  function SliceColumns(m: Columns, start: int, stop: int): Columns {
    map k | k in m :: SliceOf(m[k], start, stop)
  }

  /** `slice(start, stop)`. */
  function Slice(d: Data, start: int, stop: int): Data {
    Data(match d.batch
         case Some(b) => Some(Batch(|SliceRows(start, stop, b.size)|, SliceColumns(b.columns, start, stop)))
         case None => None,
         SliceColumns(d.extra, start, stop), d.meta)
  }

  lemma {:induction false} SliceIsPick(m: Columns, start: int, stop: int, n: nat)
    requires Uniform(m, n)
    ensures Within(SliceRows(start, stop, n), n)
    ensures SliceColumns(m, start, stop) == PickColumns(m, SliceRows(start, stop, n), n)
  {
    forall k | k in m ensures SliceOf(m[k], start, stop) == Pick(m[k], SliceRows(start, stop, n)) {
    }
  }

  lemma {:induction false} SliceIsSelect(d: Data, start: int, stop: int, n: nat)
    requires HasRows(d, n)
    ensures Within(SliceRows(start, stop, n), n)
    ensures Slice(d, start, stop) == Select(d, SliceRows(start, stop, n), n)
  {
    SliceIsPick(d.extra, start, stop, n);
    if d.batch.Some? {
      SliceIsPick(d.batch.value.columns, start, stop, n);
    }
  }

  // ------------------------------------------------------------------ repeat

  function Same<T>(x: T, n: nat): seq<T> {
    seq(n, i => x)
  }

  /** `repeat_interleave`. */
  function RepeatEach<T>(c: seq<T>, times: nat): seq<T> {
    if c == [] then [] else RepeatEach(c[..|c| - 1], times) + Same(c[|c| - 1], times)
  }

  /** `np.tile`. */
  function Tile<T>(c: seq<T>, times: nat): seq<T> {
    if times == 0 then [] else Tile(c, times - 1) + c
  }

  function Repeated<T>(c: seq<T>, times: nat, interleave: bool): seq<T> {
    if interleave then RepeatEach(c, times) else Tile(c, times)
  }

  function RepeatColumns(m: Columns, times: nat, interleave: bool): Columns {
    map k | k in m :: Repeated(m[k], times, interleave)
  }

  function Repeat(d: Data, times: nat, interleave: bool): Data {
    Data(match d.batch
         case Some(b) => Some(Batch(b.size * times, RepeatColumns(b.columns, times, interleave)))
         case None => None,
         RepeatColumns(d.extra, times, interleave), d.meta)
  }

  /** The row map of `repeat`. */
  function RepeatRows(n: nat, times: nat, interleave: bool): seq<nat> {
    Repeated(Range(0, n), times, interleave)
  }

  lemma {:induction false} RepeatedLength<T>(c: seq<T>, times: nat, interleave: bool)
    ensures |Repeated(c, times, interleave)| == if interleave then Rows(|c|, times) else Rows(times, |c|)
    decreases |c|, times
  {
    if interleave && c != [] {
      RepeatedLength(c[..|c| - 1], times, true);
    }
    if !interleave && times > 0 {
      RepeatedLength(c, times - 1, false);
    }
  }

  lemma {:induction false} RepeatEachStep<T>(c: seq<T>, times: nat)
    requires c != []
    ensures var n := |c| - 1; RepeatEach(c, times) == RepeatEach(c[..n], times) + Same(c[n], times)
  {
  }

  lemma {:induction false} RepeatNothing<T>(times: nat)
    ensures RepeatEach<T>([], times) == []
  {
  }

  lemma {:induction false} RepeatEachAt<T>(c: seq<T>, times: nat, k: nat)
    requires k < |RepeatEach(c, times)|
    ensures times > 0 && k / times < |c| && RepeatEach(c, times)[k] == c[k / times]
  {
    hide RepeatEach, Rows;
    RepeatNothing<T>(times);
    var n := |c| - 1;
    RepeatEachStep(c, times);
    RepeatedLength(c, times, true);
    RepeatedLength(c[..n], times, true);
    if k < Rows(n, times) {
      RepeatEachAt(c[..n], times, k);
    } else {
      InBlock(k, n + 1, times);
    }
  }

  lemma {:induction false} TileAt<T>(c: seq<T>, times: nat, k: nat)
    requires k < |Tile(c, times)|
    ensures |c| > 0 && Tile(c, times)[k] == c[k % |c|]
  {
    RepeatedLength(c, times, false);
    RepeatedLength(c, times - 1, false);
    if k < Rows(times - 1, |c|) {
      TileAt(c, times - 1, k);
    } else {
      InBlock(k, times, |c|);
    }
  }

  /** Row k of the result comes from row k / times, or from row k % n. */
  lemma {:induction false} RepeatedAt<T>(c: seq<T>, times: nat, interleave: bool, k: nat)
    requires k < |Repeated(c, times, interleave)|
    ensures times > 0 && |c| > 0 && (interleave ==> k / times < |c|)
    ensures Repeated(c, times, interleave)[k] == if interleave then c[k / times] else c[k % |c|]
  {
    hide RepeatEach, Tile;
    if interleave {
      RepeatEachAt(c, times, k);
    } else {
      TileAt(c, times, k);
      RepeatedLength(c, times, false);
      NoRows(times, |c|);
    }
  }

  lemma {:induction false} NoRows(g: nat, n: nat)
    ensures Rows(g, n) > 0 ==> g > 0 && n > 0
  {
    if g > 0 {
      NoRows(g - 1, n);
    }
  }

  lemma {:induction false} RepeatIsPick(c: seq<int>, times: nat, interleave: bool)
    ensures Within(RepeatRows(|c|, times, interleave), |c|)
    ensures Repeated(c, times, interleave) == Pick(c, RepeatRows(|c|, times, interleave))
  {
    hide Repeated;
    RepeatedLength(c, times, interleave);
    RepeatedLength(Range(0, |c|), times, interleave);
    var rows := RepeatRows(|c|, times, interleave);
    forall k: nat | k < |rows| ensures rows[k] < |c| && Repeated(c, times, interleave)[k] == c[rows[k]] {
      RepeatedAt(c, times, interleave, k);
      RepeatedAt(Range(0, |c|), times, interleave, k);
    }
  }

  lemma {:induction false} RepeatColumnsIsPick(m: Columns, times: nat, interleave: bool, n: nat)
    requires Uniform(m, n) && Within(RepeatRows(n, times, interleave), n)
    ensures RepeatColumns(m, times, interleave) == PickColumns(m, RepeatRows(n, times, interleave), n)
  {
    hide Repeated, RepeatRows;
    forall k | k in m ensures Repeated(m[k], times, interleave) == Pick(m[k], RepeatRows(n, times, interleave)) {
      RepeatIsPick(m[k], times, interleave);
    }
  }

  lemma {:induction false} RepeatIsSelect(d: Data, times: nat, interleave: bool, n: nat)
    requires HasRows(d, n)
    ensures Within(RepeatRows(n, times, interleave), n)
    ensures Repeat(d, times, interleave) == Select(d, RepeatRows(n, times, interleave), n)
  {
    RepeatRowsLength(n, times, interleave);
    RepeatIsPick(Range(0, n), times, interleave);
    hide RepeatRows, RepeatColumns;
    RepeatColumnsIsPick(d.extra, times, interleave, n);
    if d.batch.Some? {
      RepeatColumnsIsPick(d.batch.value.columns, times, interleave, n);
    }
  }

  lemma {:induction false} RepeatRowsLength(n: nat, times: nat, interleave: bool)
    ensures |RepeatRows(n, times, interleave)| == n * times
  {
    hide Repeated;
    RepeatedLength(Range(0, n), times, interleave);
    RowsIs(n, times);
    RowsIs(times, n);
  }

  // ------------------------------------------------------------------ concat

  /** Column `key`, from every part that has it. */
  function JoinColumn(parts: seq<Columns>, key: string): seq<int> {
    if parts == [] then []
    else
      var last := parts[|parts| - 1];
      JoinColumn(parts[..|parts| - 1], key) + (if key in last then last[key] else [])
  }

  /** The keys are those of the first part; another part may not have a key of its own. */
  function JoinColumns(parts: seq<Columns>): Option<Columns>
    requires parts != []
  {
    if exists i :: 0 <= i < |parts| && !(parts[i].Keys <= parts[0].Keys) then None
    else Some(map k | k in parts[0] :: JoinColumn(parts, k))
  }

  /** The other entries of all parts, unless two of them disagree. */
  function JoinMeta(metas: seq<map<string, int>>): Option<map<string, int>> {
    if metas == [] then Some(map[])
    else
      var before, last := JoinMeta(metas[..|metas| - 1]), metas[|metas| - 1];
      if before == None || exists k :: k in before.value && k in last && before.value[k] != last[k] then None
      else Some(before.value + last)
  }

  function TotalSize(parts: seq<Data>): nat {
    if parts == [] then 0
    else
      var last := parts[|parts| - 1];
      TotalSize(parts[..|parts| - 1]) + (match last.batch case Some(b) => b.size case None => 0)
  }

  function ExtraParts(parts: seq<Data>): seq<Columns> {
    seq(|parts|, i requires 0 <= i < |parts| => parts[i].extra)
  }

  function EntryParts(parts: seq<Data>): seq<map<string, int>> {
    seq(|parts|, i requires 0 <= i < |parts| => parts[i].meta.entries)
  }

  function MetricParts(parts: seq<Data>): seq<Entry> {
    seq(|parts|, i requires 0 <= i < |parts| => parts[i].meta.metrics)
  }

  /** The merged meta information: the metrics of all parts are collected. */
  function JoinedMeta(parts: seq<Data>): Option<Meta> {
    var entries, metrics := JoinMeta(EntryParts(parts)), Merged(MetricParts(parts));
    if entries.Some? && metrics.Some? then Some(Meta(entries.value, metrics.value)) else None
  }

  function TensorParts(parts: seq<Data>): seq<Columns>
    requires forall i | 0 <= i < |parts| :: parts[i].batch.Some?
  {
    seq(|parts|, i requires 0 <= i < |parts| => parts[i].batch.value.columns)
  }

  predicate SameTensors(parts: seq<Columns>) {
    forall i | 0 <= i < |parts| :: parts[i].Keys == parts[0].Keys
  }

  /** `concat`; `torch.cat` wants the same tensors in every part, and the result is checked for
      consistency. */
  function Concat(parts: seq<Data>): Option<Data> {
    if parts == [] then None
    else
      var extra, meta := JoinColumns(ExtraParts(parts)), JoinedMeta(parts);
      if extra == None || meta == None then None
      else if parts[0].batch == None then Some(Data(None, extra.value, meta.value))
      else if (exists i :: 0 <= i < |parts| && parts[i].batch == None) || !SameTensors(TensorParts(parts)) then None
      else
        var size, tensors := TotalSize(parts), JoinColumns(TensorParts(parts));
        if exists k :: k in extra.value && |extra.value[k]| != size then None
        else Some(Data(Some(Batch(size, tensors.value)), extra.value, meta.value))
  }

  /** Row maps one after the other. */
  function Flat(lists: seq<seq<nat>>): seq<nat> {
    if lists == [] then [] else Flat(lists[..|lists| - 1]) + lists[|lists| - 1]
  }

  predicate AllWithin(lists: seq<seq<nat>>, n: nat) {
    forall i | 0 <= i < |lists| :: Within(lists[i], n)
  }

  function Selections(d: Data, lists: seq<seq<nat>>, n: nat): (parts: seq<Data>)
    requires HasRows(d, n) && AllWithin(lists, n)
    ensures |parts| == |lists|
  {
    seq(|lists|, i requires 0 <= i < |lists| => Select(d, lists[i], n))
  }

  lemma {:induction false} FlatWithin(lists: seq<seq<nat>>, n: nat)
    requires AllWithin(lists, n)
    ensures Within(Flat(lists), n)
  {
    if lists != [] {
      FlatWithin(lists[..|lists| - 1], n);
    }
  }

  function Picks(m: Columns, lists: seq<seq<nat>>, n: nat): seq<Columns>
    requires Uniform(m, n) && AllWithin(lists, n)
  {
    seq(|lists|, i requires 0 <= i < |lists| => PickColumns(m, lists[i], n))
  }

  lemma {:induction false} JoinPick(m: Columns, lists: seq<seq<nat>>, n: nat, key: string)
    requires Uniform(m, n) && AllWithin(lists, n) && key in m
    ensures Within(Flat(lists), n)
    ensures JoinColumn(Picks(m, lists, n), key) == Pick(m[key], Flat(lists))
  {
    FlatWithin(lists, n);
    if lists != [] {
      var l := |lists| - 1;
      JoinPick(m, lists[..l], n, key);
      assert Picks(m, lists, n)[..l] == Picks(m, lists[..l], n);
      assert Pick(m[key], Flat(lists[..l]) + lists[l]) == Pick(m[key], Flat(lists[..l])) + Pick(m[key], lists[l]);
    }
  }

  lemma {:induction false} JoinPicks(m: Columns, lists: seq<seq<nat>>, n: nat)
    requires Uniform(m, n) && AllWithin(lists, n) && lists != []
    ensures Within(Flat(lists), n)
    ensures JoinColumns(Picks(m, lists, n)) == Some(PickColumns(m, Flat(lists), n))
  {
    hide JoinColumn, Flat, Within;
    FlatWithin(lists, n);
    forall k | k in m ensures JoinColumn(Picks(m, lists, n), k) == Pick(m[k], Flat(lists)) {
      JoinPick(m, lists, n, k);
    }
    var parts := Picks(m, lists, n);
    assert forall i | 0 <= i < |parts| :: parts[i].Keys == m.Keys;
    assert (map k | k in parts[0] :: JoinColumn(parts, k)) == PickColumns(m, Flat(lists), n);
  }

  lemma {:induction false} JoinSameMeta(meta: map<string, int>, metas: seq<map<string, int>>)
    requires metas != [] && forall i | 0 <= i < |metas| :: metas[i] == meta
    ensures JoinMeta(metas) == Some(meta)
  {
    var n := |metas| - 1;
    if n > 0 {
      JoinSameMeta(meta, metas[..n]);
      assert meta + meta == meta;
    } else {
      assert metas[..0] == [];
      assert map[] + meta == meta;
    }
  }

  lemma {:induction false} TotalOfSelections(d: Data, lists: seq<seq<nat>>, n: nat)
    requires HasRows(d, n) && AllWithin(lists, n) && d.batch.Some?
    ensures TotalSize(Selections(d, lists, n)) == |Flat(lists)|
  {
    if lists != [] {
      var l := |lists| - 1;
      TotalOfSelections(d, lists[..l], n);
      assert Selections(d, lists, n)[..l] == Selections(d, lists[..l], n);
    }
  }

  lemma {:induction false} JoinedMetaOfSelections(d: Data, lists: seq<seq<nat>>, n: nat)
    requires HasRows(d, n) && AllWithin(lists, n) && lists != []
    ensures JoinedMeta(Selections(d, lists, n)) ==
            match Remerged(d.meta.metrics, |lists|)
            case None => None
            case Some(metrics) => Some(d.meta.(metrics := metrics))
  {
    hide JoinMeta, Merged, Select;
    var parts := Selections(d, lists, n);
    assert forall i | 0 <= i < |parts| :: parts[i].meta == d.meta by {
      forall i | 0 <= i < |parts| ensures parts[i].meta == d.meta {
        SelectKeepsMeta(d, lists[i], n);
      }
    }
    JoinSameMeta(d.meta.entries, EntryParts(parts));
    assert MetricParts(parts) == Copies(d.meta.metrics, |lists|);
  }

  lemma {:induction false} SelectKeepsMeta(d: Data, idx: seq<nat>, n: nat)
    requires HasRows(d, n) && Within(idx, n)
    ensures Select(d, idx, n).meta == d.meta
  {
  }

  /** Concatenating selections is selecting with the row maps one after the other, but for the metrics,
      which are merged; it fails only where these cannot be merged. */
  lemma {:induction false} ConcatSelections(d: Data, lists: seq<seq<nat>>, n: nat)
    requires HasRows(d, n) && AllWithin(lists, n) && lists != []
    ensures Within(Flat(lists), n)
    ensures Concat(Selections(d, lists, n)) ==
            match Remerged(d.meta.metrics, |lists|)
            case None => None
            case Some(metrics) => Some(WithMetrics(Select(d, Flat(lists), n), metrics))
  {
    hide Flat, JoinColumns, JoinedMeta, Remerged, TotalSize, AllWithin, PickColumns;
    var parts := Selections(d, lists, n);
    JoinPicks(d.extra, lists, n);
    assert ExtraParts(parts) == Picks(d.extra, lists, n);
    JoinedMetaOfSelections(d, lists, n);
    if d.batch.Some? {
      JoinPicks(d.batch.value.columns, lists, n);
      assert TensorParts(parts) == Picks(d.batch.value.columns, lists, n);
      TotalOfSelections(d, lists, n);
      PickedKeys(d, lists, n);
    }
  }

  lemma {:induction false} PickedKeys(d: Data, lists: seq<seq<nat>>, n: nat)
    requires HasRows(d, n) && AllWithin(lists, n) && d.batch.Some? && Within(Flat(lists), n)
    ensures SameTensors(Picks(d.batch.value.columns, lists, n))
    ensures Uniform(PickColumns(d.extra, Flat(lists), n), |Flat(lists)|)
  {
    var m := d.batch.value.columns;
    forall i | 0 <= i < |lists| ensures PickColumns(m, lists[i], n).Keys == m.Keys {
    }
  }

  /** Parts that cover the rows in order concatenate to the data, up to the metrics, and to the data as it
      was exactly when there are no metrics to merge. */
  lemma {:induction false} ConcatOfCover(d: Data, lists: seq<seq<nat>>, n: nat)
    requires HasRows(d, n) && AllWithin(lists, n) && lists != [] && Flat(lists) == Range(0, n)
    ensures Concat(Selections(d, lists, n)) ==
            match Remerged(d.meta.metrics, |lists|)
            case None => None
            case Some(metrics) => Some(WithMetrics(d, metrics))
    ensures Concat(Selections(d, lists, n)).Some? <==> SelfAlike(d.meta.metrics)
    ensures Concat(Selections(d, lists, n)) == Some(d) <==> Plain(d.meta.metrics)
  {
    hide Concat, Select, Remerged, Flat, Plain, SelfAlike;
    ConcatSelections(d, lists, n);
    SelectAll(d, n);
    RemergedExactly(d.meta.metrics, |lists|);
    if Remerged(d.meta.metrics, |lists|).Some? {
      WithMetricsIs(d, Remerged(d.meta.metrics, |lists|).value);
    }
  }

  lemma {:induction false} WithMetricsIs(d: Data, metrics: Entry)
    ensures WithMetrics(d, metrics) == d <==> metrics == d.meta.metrics
  {
  }

  /** The metrics of several workers' results, concatenated. */
  lemma {:induction false} ConcatCollectsMetrics(parts: seq<Data>, dicts: seq<Dict>)
    requires |parts| == |dicts| && Concat(parts).Some?
    requires forall i | 0 <= i < |parts| :: parts[i].meta.metrics == Single(dicts[i])
    ensures Alike(dicts)
    ensures Some(Concat(parts).value.meta.metrics) == Merged(Singles(dicts))
  {
    hide JoinColumns, TotalSize, JoinMeta, Merged, SameTensors, Alike;
    MergedOfWorkers(dicts);
    assert MetricParts(parts) == Singles(dicts);
  }

  // ------------------------------------------------------------------ chunk and split

  /** The bounds at which equal chunks start. */
  function Runs(k: nat, size: nat): (lists: seq<seq<nat>>)
    ensures |lists| == k
  {
    if k == 0 then [] else Runs(k - 1, size) + [Range(Rows(k - 1, size), size)]
  }

  lemma {:induction false} RunsCover(k: nat, size: nat)
    ensures Flat(Runs(k, size)) == Range(0, Rows(k, size))
    ensures AllWithin(Runs(k, size), Rows(k, size))
  {
    if k > 0 {
      RunsCover(k - 1, size);
      assert Runs(k, size)[..k - 1] == Runs(k - 1, size);
      assert forall i | 0 <= i < k - 1 :: Runs(k, size)[i] == Runs(k - 1, size)[i];
    }
  }

  lemma {:induction false} RunAt(k: nat, size: nat, i: nat)
    requires i < k
    ensures Runs(k, size)[i] == Range(Rows(i, size), size) && Rows(i, size) + size <= Rows(k, size)
  {
    if i < k - 1 {
      RunAt(k - 1, size, i);
    }
  }

  /** The columns between two positions. */
  function Piece(m: Columns, from: nat, to: nat): Columns {
    SliceColumns(m, from, to)
  }

  /** Where the chunks of `n` rows lie. */
  lemma {:induction false} RunsCoverAll(n: nat, chunks: nat)
    requires chunks > 0 && n % chunks == 0
    ensures Rows(chunks, n / chunks) == n && AllWithin(Runs(chunks, n / chunks), n)
    ensures Flat(Runs(chunks, n / chunks)) == Range(0, n)
  {
    Multiple(n, chunks);
    RowsIs(chunks, n / chunks);
    TimesSwap(1, n / chunks, chunks);
    RunsCover(chunks, n / chunks);
  }

  lemma {:induction false} PieceIsSelect(d: Data, n: nat, chunks: nat, size: nat, i: nat)
    requires HasRows(d, n) && Rows(chunks, size) == n && i < chunks
    ensures var from := Rows(i, size);
            && Within(Runs(chunks, size)[i], n)
            && Slice(d, from, from + size) == Select(d, Runs(chunks, size)[i], n)
            && SliceRows(from, from + size, n) == Runs(chunks, size)[i]
  {
    hide Runs, Slice, Select;
    RunAt(chunks, size, i);
    var from := Rows(i, size);
    SliceIsSelect(d, from, from + size, n);
    assert SliceRows(from, from + size, n) == Range(from, size);
  }

  /** The part of the data between two positions, cut from tensors and objects alike. */
  function Part(d: Data, from: nat, size: nat): Data {
    Data(match d.batch
         case Some(b) => Some(Batch(size, Piece(b.columns, from, from + size)))
         case None => None,
         Piece(d.extra, from, from + size), d.meta)
  }

  lemma {:induction false} PartIsSlice(d: Data, from: nat, size: nat, n: nat)
    requires HasRows(d, n) && |SliceRows(from, from + size, n)| == size
    ensures Part(d, from, size) == Slice(d, from, from + size)
  {
  }

  /** `chunk` without padding: it wants the rows to divide evenly; tensors and objects are cut at the
      same places. */
  method Chunk(d: Data, ghost n: nat, rows: nat, chunks: nat) returns (out: Option<seq<Data>>)
    requires HasRows(d, n) && rows == n
    ensures out.Some? <==> chunks > 0 && n % chunks == 0
    ensures out.Some? ==>
              && AllWithin(Runs(chunks, n / chunks), n)
              && out.value == Selections(d, Runs(chunks, n / chunks), n)
  {
    hide Runs, Slice, Select, Part, Rows, Within, HasRows;
    if chunks == 0 || rows % chunks != 0 {
      return None;
    }
    var size := rows / chunks;
    RunsCoverAll(n, chunks);
    var parts: seq<Data> := [];
    var from := 0;
    assert Rows(0, size) == 0 by { RowsIs(0, size); }
    for i := 0 to chunks
      invariant from == Rows(i, size) && |parts| == i
      invariant forall j | 0 <= j < i :: parts[j] == Select(d, Runs(chunks, size)[j], n)
    {
      PieceIsSelect(d, n, chunks, size, i);
      RunAt(chunks, size, i);
      PartIsSlice(d, from, size, n);
      RowsStep(i + 1, size);
      parts := parts + [Part(d, from, size)];
      from := from + size;
    }
    assert parts == Selections(d, Runs(chunks, size), n);
    out := Some(parts);
  }

  /** Concatenating the chunks gives the data back exactly when there are no metrics to merge. */
  lemma {:induction false} ConcatUndoesChunk(d: Data, n: nat, chunks: nat)
    requires HasRows(d, n) && chunks > 0 && n % chunks == 0
    ensures AllWithin(Runs(chunks, n / chunks), n)
    ensures Concat(Selections(d, Runs(chunks, n / chunks), n)) ==
            match Remerged(d.meta.metrics, chunks)
            case None => None
            case Some(metrics) => Some(WithMetrics(d, metrics))
    ensures Concat(Selections(d, Runs(chunks, n / chunks), n)) == Some(d) <==> Plain(d.meta.metrics)
  {
    hide Concat, Remerged, Runs, Plain, HasRows;
    RunsCoverAll(n, chunks);
    ConcatOfCover(d, Runs(chunks, n / chunks), n);
  }

  /** A number among the metrics comes back as the list of its values, even from a single chunk. */
  lemma {:induction false} MetricsBecomeLists(x: int, d: Data)
    requires d == Data(None, map["uid" := [x]], Meta(map[], Single(map["loss" := Num(x)])))
    ensures HasRows(d, 1) && AllWithin(Runs(1, 1), 1)
    ensures Concat(Selections(d, Runs(1, 1), 1)) ==
            Some(WithMetrics(d, Single(map["loss" := List([Num(x)])])))
  {
    hide Concat, Runs;
    assert "uid" in d.extra;
    assert |d.extra["uid"]| == 1;
    ConcatUndoesChunk(d, 1, 1);
    assert 1 / 1 == 1;
    ListOfOne(x);
  }

  /** The row maps of `split`: runs of `size`, the last one possibly shorter. */
  function SplitRows(from: nat, n: nat, size: nat): seq<seq<nat>>
    requires size > 0 && from <= n
    decreases n - from
  {
    if from == n then []
    else if from + size >= n then [Range(from, n - from)]
    else [Range(from, size)] + SplitRows(from + size, n, size)
  }

  /** How many runs there are, and which rows the k-th one is. */
  lemma {:induction false} SplitAt(from: nat, n: nat, size: nat, k: nat)
    requires size > 0 && from <= n
    ensures k < |SplitRows(from, n, size)| <==> from + k * size < n
    ensures k < |SplitRows(from, n, size)| ==>
              var start := from + k * size;
              SplitRows(from, n, size)[k] == Range(start, Min(size, n - start))
    decreases k
  {
    if k > 0 {
      assert k * size == (k - 1) * size + size;
      TimesGrows(0, k - 1, size);
      if from + size < n {
        SplitAt(from + size, n, size, k - 1);
      }
    }
  }

  lemma {:induction false} FlatCons(x: seq<nat>, lists: seq<seq<nat>>)
    ensures Flat([x] + lists) == x + Flat(lists)
  {
    if lists == [] {
      assert ([x] + lists)[..0] == [];
    } else {
      assert ([x] + lists)[..|lists|] == [x] + lists[..|lists| - 1];
      FlatCons(x, lists[..|lists| - 1]);
    }
  }

  lemma {:induction false} FlatOne(x: seq<nat>)
    ensures Flat([x]) == x
  {
    assert [x][..0] == [];
  }

  lemma {:induction false} SplitCovers(from: nat, n: nat, size: nat)
    requires size > 0 && from <= n
    ensures Flat(SplitRows(from, n, size)) == Range(from, n - from)
    ensures AllWithin(SplitRows(from, n, size), n)
    decreases n - from
  {
    if from == n {
      assert Flat([]) == [];
    } else if from + size >= n {
      FlatOne(Range(from, n - from));
    } else {
      SplitCovers(from + size, n, size);
      SplitCoversStep(from, n, size);
    }
  }

  lemma {:induction false} SplitCoversStep(from: nat, n: nat, size: nat)
    requires size > 0 && from + size < n
    requires Flat(SplitRows(from + size, n, size)) == Range(from + size, n - from - size)
    requires AllWithin(SplitRows(from + size, n, size), n)
    ensures Flat(SplitRows(from, n, size)) == Range(from, n - from)
    ensures AllWithin(SplitRows(from, n, size), n)
  {
    hide Flat;
    FlatCons(Range(from, size), SplitRows(from + size, n, size));
    assert Range(from, size) + Range(from + size, n - from - size) == Range(from, n - from);
  }

  /** What one more slice of `split` is. */
  lemma {:induction false} SplitNext(d: Data, from: nat, n: nat, size: nat, next: nat) returns (x: seq<nat>)
    requires HasRows(d, n) && size > 0 && from < n && next == if from + size < n then from + size else n
    ensures SplitRows(from, n, size) == [x] + SplitRows(next, n, size)
    ensures Within(x, n) && Slice(d, from, from + size) == Select(d, x, n)
  {
    hide Slice, Select;
    x := SplitRows(from, n, size)[0];
    SliceIsSelect(d, from, from + size, n);
    assert SliceRows(from, from + size, n) == x;
  }

  lemma {:induction false} SelectionsSnoc(d: Data, lists: seq<seq<nat>>, x: seq<nat>, n: nat)
    requires HasRows(d, n) && AllWithin(lists, n) && Within(x, n)
    ensures AllWithin(lists + [x], n)
    ensures Selections(d, lists + [x], n) == Selections(d, lists, n) + [Select(d, x, n)]
  {
  }

  lemma {:induction false} SplitStarts(d: Data, n: nat, size: nat)
    requires HasRows(d, n) && size > 0
    ensures [] + SplitRows(0, n, size) == SplitRows(0, n, size)
    ensures AllWithin([], n) && Selections(d, [], n) == []
  {
  }

  lemma {:induction false} SplitEnds(n: nat, size: nat, done: seq<seq<nat>>)
    requires size > 0
    ensures done + SplitRows(n, n, size) == done
  {
  }

  /** `split`. */
  method Split(d: Data, ghost n: nat, rows: nat, size: nat) returns (parts: seq<Data>)
    requires HasRows(d, n) && rows == n && size > 0
    ensures AllWithin(SplitRows(0, n, size), n)
    ensures parts == Selections(d, SplitRows(0, n, size), n)
  {
    hide SplitRows, Select, Slice, Within, AllWithin, Selections, HasRows, Bound, Range;
    SplitStarts(d, n, size);
    parts := [];
    var i := 0;
    ghost var from, done: seq<seq<nat>> := 0, [];
    while i < rows
      invariant from == if i < rows then i else rows
      invariant done + SplitRows(from, n, size) == SplitRows(0, n, size)
      invariant AllWithin(done, n) && parts == Selections(d, done, n)
    {
      ghost var next := if from + size < n then from + size else n;
      ghost var x := SplitNext(d, from, n, size, next);
      SelectionsSnoc(d, done, x, n);
      Reassociate(done, [x], SplitRows(next, n, size));
      parts := parts + [Slice(d, i, i + size)];
      done := done + [x];
      i := i + size;
      from := next;
    }
    SplitEnds(n, size, done);
  }

  lemma {:induction false} Reassociate<T>(a: seq<T>, b: seq<T>, c: seq<T>)
    ensures a + (b + c) == (a + b) + c
  {
  }

  /** Concatenating what was split gives the data back exactly when there is something to split, and
      there are no metrics to merge. */
  lemma {:induction false} ConcatUndoesSplit(d: Data, n: nat, size: nat)
    requires HasRows(d, n) && size > 0
    ensures AllWithin(SplitRows(0, n, size), n)
    ensures Concat(Selections(d, SplitRows(0, n, size), n)) == Some(d) <==> n > 0 && Plain(d.meta.metrics)
    ensures n == 0 ==> Concat(Selections(d, SplitRows(0, n, size), n)) == None
  {
    hide Plain, HasRows;
    SplitCovers(0, n, size);
    if n > 0 {
      ConcatOfCover(d, SplitRows(0, n, size), n);
    }
  }
}
