/** Concatenating batches of any origin: when it succeeds, and which rows the result has. */
module DataProtoConcat {
  import opened Options
  import opened Metrics
  import opened DataProto

  // ------------------------------------------------------------------ one column

  function SumOf(ns: seq<nat>): nat {
    if ns == [] then 0 else SumOf(ns[..|ns| - 1]) + ns[|ns| - 1]
  }

  /** Every part has the column, with as many values as it has rows. */
  ghost predicate HaveColumn(parts: seq<Columns>, ns: seq<nat>, key: string) {
    |parts| == |ns| && forall i | 0 <= i < |parts| :: key in parts[i] && |parts[i][key]| == ns[i]
  }

  lemma {:induction false} JoinLength(parts: seq<Columns>, ns: seq<nat>, key: string)
    requires HaveColumn(parts, ns, key)
    ensures |JoinColumn(parts, key)| == SumOf(ns)
  {
    if parts != [] {
      JoinLength(parts[..|parts| - 1], ns[..|ns| - 1], key);
    }
  }

  /** Value j of part i comes after all values of earlier parts. */
  lemma {:induction false} JoinAt(parts: seq<Columns>, ns: seq<nat>, key: string, i: nat, j: nat)
    requires HaveColumn(parts, ns, key) && i < |parts| && j < ns[i]
    ensures SumOf(ns[..i]) + j < SumOf(ns) == |JoinColumn(parts, key)|
    ensures JoinColumn(parts, key)[SumOf(ns[..i]) + j] == parts[i][key][j]
  {
    var n := |parts| - 1;
    JoinLength(parts, ns, key);
    JoinLength(parts[..n], ns[..n], key);
    if i < n {
      JoinAt(parts[..n], ns[..n], key, i, j);
      assert ns[..n][..i] == ns[..i];
    }
  }

  /** A part with rows that lacks the column makes it too short. */
  lemma {:induction false} JoinTooShort(parts: seq<Columns>, ns: seq<nat>, key: string, i: nat)
    requires |parts| == |ns| && i < |parts| && key !in parts[i] && ns[i] > 0
    requires forall k | 0 <= k < |parts| && key in parts[k] :: |parts[k][key]| == ns[k]
    ensures |JoinColumn(parts, key)| < SumOf(ns)
  {
    var n := |parts| - 1;
    JoinAtMost(parts[..n], ns[..n], key);
    if i < n {
      JoinTooShort(parts[..n], ns[..n], key, i);
    }
  }

  lemma {:induction false} JoinAtMost(parts: seq<Columns>, ns: seq<nat>, key: string)
    requires |parts| == |ns|
    requires forall k | 0 <= k < |parts| && key in parts[k] :: |parts[k][key]| == ns[k]
    ensures |JoinColumn(parts, key)| <= SumOf(ns)
  {
    if parts != [] {
      JoinAtMost(parts[..|parts| - 1], ns[..|ns| - 1], key);
    }
  }

  // ------------------------------------------------------------------ meta information

  /** No two parts disagree on an entry. */
  ghost predicate Agree(metas: seq<map<string, int>>) {
    forall i, j, k | 0 <= i < j < |metas| && k in metas[i] && k in metas[j] :: metas[i][k] == metas[j][k]
  }

  /** Some part has the entry. */
  ghost predicate HasEntry(metas: seq<map<string, int>>, k: string, v: int) {
    exists i :: 0 <= i < |metas| && k in metas[i] && metas[i][k] == v
  }

  lemma {:induction false} EntrySnoc(metas: seq<map<string, int>>, last: map<string, int>, k: string, v: int)
    ensures HasEntry(metas + [last], k, v) <==> HasEntry(metas, k, v) || (k in last && last[k] == v)
  {
    var all := metas + [last];
    assert all[|metas|] == last;
    if HasEntry(metas, k, v) {
      var i :| 0 <= i < |metas| && k in metas[i] && metas[i][k] == v;
      assert all[i] == metas[i];
    }
  }

  lemma {:induction false} AgreeSnoc(metas: seq<map<string, int>>, last: map<string, int>)
    ensures Agree(metas + [last]) <==>
            Agree(metas) && forall i, k | 0 <= i < |metas| && k in metas[i] && k in last :: metas[i][k] == last[k]
  {
    var all := metas + [last];
    assert all[|metas|] == last && forall i | 0 <= i < |metas| :: all[i] == metas[i];
    if Agree(all) {
      forall i, k | 0 <= i < |metas| && k in metas[i] && k in last ensures metas[i][k] == last[k] {
        assert all[i][k] == all[|metas|][k];
      }
      forall i, j, k | 0 <= i < j < |metas| && k in metas[i] && k in metas[j] ensures metas[i][k] == metas[j][k] {
        assert all[i][k] == all[j][k];
      }
    }
  }

  /** Merging the entries fails exactly when two parts disagree; the result has the entries of all. */
  lemma {:induction false} JoinMetaExactly(metas: seq<map<string, int>>)
    ensures JoinMeta(metas).Some? <==> Agree(metas)
    ensures JoinMeta(metas).Some? ==>
              forall k, v :: k in JoinMeta(metas).value && JoinMeta(metas).value[k] == v <==> HasEntry(metas, k, v)
  {
    if metas != [] {
      var n := |metas| - 1;
      var before, last := metas[..n], metas[n];
      JoinMetaExactly(before);
      AgreeSnoc(before, last);
      assert metas == before + [last];
      hide Agree, HasEntry;
      if JoinMeta(before).Some? {
        AgreesWith(before, JoinMeta(before).value, last);
      }
      forall k, v ensures JoinMeta(metas).Some? ==>
          (k in JoinMeta(metas).value && JoinMeta(metas).value[k] == v <==> HasEntry(metas, k, v))
      {
        EntrySnoc(before, last, k, v);
      }
    }
  }

  lemma {:induction false} AgreesWith(metas: seq<map<string, int>>, merged: map<string, int>, last: map<string, int>)
    requires forall k, v :: k in merged && merged[k] == v <==> HasEntry(metas, k, v)
    ensures (exists k :: k in merged && k in last && merged[k] != last[k]) <==>
            (exists i, k :: 0 <= i < |metas| && k in metas[i] && k in last && metas[i][k] != last[k])
  {
    if exists k :: k in merged && k in last && merged[k] != last[k] {
      var k :| k in merged && k in last && merged[k] != last[k];
      assert HasEntry(metas, k, merged[k]);
    }
    if i, k :| 0 <= i < |metas| && k in metas[i] && k in last && metas[i][k] != last[k] {
      assert HasEntry(metas, k, metas[i][k]);
    }
  }

  // ------------------------------------------------------------------ all columns

  ghost predicate AllHaveRows(parts: seq<Data>, ns: seq<nat>) {
    |parts| == |ns| && forall i | 0 <= i < |parts| :: HasRows(parts[i], ns[i])
  }

  /** The parts have the same tensors and the same objects. */
  ghost predicate SameColumns(parts: seq<Data>) {
    forall i | 0 <= i < |parts| ::
      && parts[i].batch.Some? && parts[0].batch.Some?
      && parts[i].batch.value.columns.Keys == parts[0].batch.value.columns.Keys
      && parts[i].extra.Keys == parts[0].extra.Keys
  }

  lemma {:induction false} TotalIsSum(parts: seq<Data>, ns: seq<nat>)
    requires AllHaveRows(parts, ns) && forall i | 0 <= i < |parts| :: parts[i].batch.Some?
    ensures TotalSize(parts) == SumOf(ns)
  {
    if parts != [] {
      TotalIsSum(parts[..|parts| - 1], ns[..|ns| - 1]);
    }
  }

  ghost predicate SameExtra(parts: seq<Data>) {
    forall i | 0 <= i < |parts| :: parts[i].extra.Keys == parts[0].extra.Keys
  }

  /** The joined objects are as long as the tensors. */
  ghost predicate ExtraLong(parts: seq<Data>, n: nat)
    requires parts != []
  {
    var extra := JoinColumns(ExtraParts(parts));
    extra.Some? && forall k | k in extra.value :: |extra.value[k]| == n
  }

  /** Batches that all have rows can be concatenated exactly when they have the same columns, agree on the
      meta information, and their metrics can be merged. */
  lemma {:induction false} ConcatExactly(parts: seq<Data>, ns: seq<nat>)
    requires AllHaveRows(parts, ns) && parts != [] && parts[0].batch.Some?
    requires forall i | 0 <= i < |ns| :: ns[i] > 0
    ensures Concat(parts).Some? <==>
            && SameColumns(parts) && Agree(EntryParts(parts)) && Merged(MetricParts(parts)).Some?
  {
    hide JoinColumns, JoinMeta, TotalSize, Merged, Agree, HasRows, SumOf, SameExtra;
    JoinMetaExactly(EntryParts(parts));
    ExtraFits(parts, ns);
    if forall i | 0 <= i < |parts| :: parts[i].batch.Some? {
      TotalIsSum(parts, ns);
      SameColumnsMeans(parts);
    }
  }

  lemma {:induction false} SameColumnsMeans(parts: seq<Data>)
    requires forall i | 0 <= i < |parts| :: parts[i].batch.Some?
    ensures SameColumns(parts) <==> SameTensors(TensorParts(parts)) && SameExtra(parts)
  {
    var tensors := TensorParts(parts);
    assert forall i | 0 <= i < |parts| :: tensors[i] == parts[i].batch.value.columns;
    if SameColumns(parts) {
      forall i | 0 <= i < |tensors| ensures tensors[i].Keys == tensors[0].Keys {
        assert parts[i].batch.value.columns.Keys == parts[0].batch.value.columns.Keys;
      }
    }
  }

  /** Whether the joined objects are as long as the joined tensors. */
  lemma {:induction false} ExtraFits(parts: seq<Data>, ns: seq<nat>)
    requires AllHaveRows(parts, ns) && parts != [] && forall i | 0 <= i < |ns| :: ns[i] > 0
    ensures SameExtra(parts) <==> ExtraLong(parts, SumOf(ns))
  {
    hide JoinColumn, SumOf, HasRows;
    var extra := ExtraParts(parts);
    forall k
      ensures |JoinColumn(extra, k)| == SumOf(ns) <==> forall i | 0 <= i < |parts| :: k in parts[i].extra
    {
      ColumnFits(parts, ns, k);
    }
    if ExtraLong(parts, SumOf(ns)) {
      forall i | 0 <= i < |parts| ensures parts[i].extra.Keys == parts[0].extra.Keys {
        assert extra[i].Keys <= extra[0].Keys;
        forall k | k in parts[0].extra ensures k in parts[i].extra {
          assert JoinColumns(extra).value[k] == JoinColumn(extra, k);
        }
      }
    }
    if SameExtra(parts) {
      assert forall i | 0 <= i < |extra| :: extra[i].Keys == parts[i].extra.Keys;
      assert forall k | k in extra[0] :: JoinColumns(extra).value[k] == JoinColumn(extra, k);
    }
  }

  lemma {:induction false} ColumnFits(parts: seq<Data>, ns: seq<nat>, k: string)
    requires AllHaveRows(parts, ns) && parts != [] && forall i | 0 <= i < |ns| :: ns[i] > 0
    ensures |JoinColumn(ExtraParts(parts), k)| == SumOf(ns) <==> forall i | 0 <= i < |parts| :: k in parts[i].extra
  {
    hide JoinColumn, SumOf;
    var extra := ExtraParts(parts);
    forall i | 0 <= i < |parts| && k in extra[i] ensures |extra[i][k]| == ns[i] {
      assert HasRows(parts[i], ns[i]);
    }
    if forall i | 0 <= i < |parts| :: k in parts[i].extra {
      JoinLength(extra, ns, k);
    } else {
      var i :| 0 <= i < |parts| && k !in parts[i].extra;
      JoinTooShort(extra, ns, k, i);
    }
  }

  lemma {:induction false} ColumnsJoined(parts: seq<Columns>, ns: seq<nat>, i: nat, j: nat)
    requires |parts| == |ns| && i < |parts| && j < ns[i]
    requires forall k | 0 <= k < |parts| :: Uniform(parts[k], ns[k]) && parts[k].Keys == parts[0].Keys
    ensures JoinColumns(parts).Some? && Uniform(JoinColumns(parts).value, SumOf(ns))
    ensures SumOf(ns[..i]) + j < SumOf(ns)
    ensures Cells(JoinColumns(parts).value, SumOf(ns), SumOf(ns[..i]) + j) == Cells(parts[i], ns[i], j)
  {
    hide JoinColumn, SumOf;
    SumBelow(ns, i, j);
    forall key | key in parts[0]
      ensures |JoinColumn(parts, key)| == SumOf(ns)
      ensures JoinColumn(parts, key)[SumOf(ns[..i]) + j] == parts[i][key][j]
    {
      JoinAt(parts, ns, key, i, j);
    }
  }

  lemma {:induction false} SumBelow(ns: seq<nat>, i: nat, j: nat)
    requires i < |ns| && j < ns[i]
    ensures SumOf(ns[..i]) + j < SumOf(ns)
  {
    var n := |ns| - 1;
    if i < n {
      SumBelow(ns[..n], i, j);
      assert ns[..n][..i] == ns[..i];
    }
  }

  /** The rows of a concatenation: row j of part i comes after all rows of earlier parts. */
  lemma {:induction false} ConcatRows(parts: seq<Data>, ns: seq<nat>, i: nat, j: nat)
    requires AllHaveRows(parts, ns) && SameColumns(parts) && Concat(parts).Some?
    requires i < |parts| && j < ns[i]
    ensures HasRows(Concat(parts).value, SumOf(ns)) && SumOf(ns[..i]) + j < SumOf(ns)
    ensures RowAt(Concat(parts).value, SumOf(ns), SumOf(ns[..i]) + j) == RowAt(parts[i], ns[i], j)
  {
    hide JoinColumns, JoinedMeta, TotalSize, Uniform, Cells, SumOf;
    var tensors, extra := TensorParts(parts), ExtraParts(parts);
    forall k | 0 <= k < |parts|
      ensures Uniform(tensors[k], ns[k]) && tensors[k].Keys == tensors[0].Keys
      ensures Uniform(extra[k], ns[k]) && extra[k].Keys == extra[0].Keys
    {
      assert HasRows(parts[k], ns[k]);
    }
    TotalIsSum(parts, ns);
    ColumnsJoined(tensors, ns, i, j);
    ColumnsJoined(extra, ns, i, j);
  }
}
