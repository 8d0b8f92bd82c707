/** Laws of the greedy packing: what a bucket can hold, and how many buckets there are. */
module PackingLaws {
  import opened Weights
  import opened Packing

  // ------------------------------------------------------- names

  predicate DistinctNames(ws: seq<Weight>) {
    forall i, j | 0 <= i < j < |ws| :: ws[i].name != ws[j].name
  }

  /** All chunks of a weight but its last fill a bucket: a chunk with a namesake after it is full, and
      the namesake is not empty. */
  predicate FullBefore(cs: seq<Chunk>, b: nat) {
    forall i, j | 0 <= i < j < |cs| && cs[i].meta.name == cs[j].meta.name ::
      cs[i].meta.chunkSize == b && cs[j].meta.chunkSize >= 1
  }

  lemma {:induction false} ChunkNames(w: Weight, b: nat, from: nat)
    requires b >= 1 && from <= |w.data|
    ensures forall c | c in ChunksFrom(w, b, from) :: c.meta.name == w.name
    ensures FullBefore(ChunksFrom(w, b, from), b)
    decreases |w.data| - from
  {
    if from < |w.data| {
      var c := ChunkAt(w, b, from);
      var rest := ChunksFrom(w, b, from + c.meta.chunkSize);
      ChunkNames(w, b, from + c.meta.chunkSize);
      ChunksFromFit(w, b, from + c.meta.chunkSize);
      assert ChunksFrom(w, b, from) == [c] + rest;
      assert rest != [] ==> c.meta.chunkSize == b;
      assert forall j | 0 <= j < |rest| :: Fitting(rest[j], b);
    }
  }

  lemma {:induction false} SplitNames(ws: seq<Weight>, b: nat)
    requires b >= 1 && DistinctNames(ws)
    ensures forall c | c in Split(ws, b) :: exists i :: 0 <= i < |ws| && c.meta.name == ws[i].name
    ensures FullBefore(Split(ws, b), b)
  {
    if ws != [] {
      var head, tail := ChunksFrom(ws[0], b, 0), Split(ws[1..], b);
      ChunkNames(ws[0], b, 0);
      assert DistinctNames(ws[1..]);
      SplitNames(ws[1..], b);
      forall c | c in tail ensures c.meta.name != ws[0].name
        ensures exists i :: 0 <= i < |ws| && c.meta.name == ws[i].name
      {
        var i :| 0 <= i < |ws[1..]| && c.meta.name == ws[1..][i].name;
        assert ws[1..][i] == ws[i + 1];
      }
      assert Split(ws, b) == head + tail;
      forall i, j | 0 <= i < j < |head + tail| && (head + tail)[i].meta.name == (head + tail)[j].meta.name
        ensures (head + tail)[i].meta.chunkSize == b && (head + tail)[j].meta.chunkSize >= 1
      {
        assert i < |head| ==> (head + tail)[i] in head;
        assert j >= |head| ==> (head + tail)[j] in tail;
        if i >= |head| {
          assert (head + tail)[i] == tail[i - |head|] && (head + tail)[j] == tail[j - |head|];
        }
      }
    }
  }

  /** The open bucket is made of chunks consumed. */
  lemma {:induction false} OpenFrom(cs: seq<Chunk>, b: nat, k: nat) returns (j: nat)
    requires k < |Pack(cs, b).open|
    ensures j < |cs| && Unplaced(Pack(cs, b).open[k]) == Unplaced(cs[j])
    decreases |cs|
  {
    var pre, c := cs[..|cs| - 1], cs[|cs| - 1];
    var p := Pack(pre, b);
    if Used(p.open) + c.meta.chunkSize <= b && k < |p.open| {
      j := OpenFrom(pre, b, k);
    } else {
      j := |cs| - 1;
    }
  }

  /** The assertion `tensor_meta.name not in bucket_meta` never fires: a chunk that fits the open
      bucket finds no other chunk of its weight there. */
  lemma {:induction false} NameIsFresh(cs: seq<Chunk>, i: nat, b: nat, k: nat)
    requires AllBounded(cs, b) && FullBefore(cs, b) && i < |cs|
    requires k < |Pack(cs[..i], b).open|
    requires Used(Pack(cs[..i], b).open) + cs[i].meta.chunkSize <= b
    ensures Pack(cs[..i], b).open[k].meta.name != cs[i].meta.name
  {
    var open := Pack(cs[..i], b).open;
    var j := OpenFrom(cs[..i], b, k);
    assert cs[..i][j] == cs[j];
    UsedGrows(open, k);
    assert Bounded(cs[i], b);
  }

  predicate NamesDiffer(bucket: Bucket) {
    forall k, l | 0 <= k < l < |bucket| :: bucket[k].meta.name != bucket[l].meta.name
  }

  predicate AllNamesDiffer(buckets: seq<Bucket>) {
    forall k | 0 <= k < |buckets| :: NamesDiffer(buckets[k])
  }

  lemma {:induction false} NamesStep(p: Packed, c: Chunk, b: nat)
    requires AllNamesDiffer(Sent(p))
    requires Used(p.open) + c.meta.chunkSize <= b ==> forall k | 0 <= k < |p.open| :: p.open[k].meta.name != c.meta.name
    ensures AllNamesDiffer(Sent(PackStep(p, c, b)))
  {
    hide Used;
    var before, after := Sent(p), Sent(PackStep(p, c, b));
    assert NamesDiffer(before[|p.closed|]);
    forall k | 0 <= k < |after| ensures NamesDiffer(after[k]) {
      assert k < |p.closed| ==> after[k] == before[k];
    }
  }

  lemma {:induction false} BucketNamesAt(cs: seq<Chunk>, i: nat, b: nat)
    requires AllBounded(cs, b) && FullBefore(cs, b) && i <= |cs|
    ensures AllNamesDiffer(Sent(Pack(cs[..i], b)))
    decreases i
  {
    hide AllNamesDiffer, Used, PackStep, FullBefore, AllBounded;
    if i == 0 {
      NoNames(b);
    } else {
      BucketNamesAt(cs, i - 1, b);
      PackNext(cs, i - 1, b);
      var p, c := Pack(cs[..i - 1], b), cs[i - 1];
      if Used(p.open) + c.meta.chunkSize <= b {
        forall k | 0 <= k < |p.open| ensures p.open[k].meta.name != c.meta.name {
          NameIsFresh(cs, i - 1, b, k);
        }
      }
      NamesStep(p, c, b);
    }
  }

  lemma {:induction false} NoNames(b: nat)
    ensures AllNamesDiffer(Sent(Pack([], b)))
  {
  }

  /** Two chunks of one weight never share a bucket. */
  lemma {:induction false} BucketNames(ws: seq<Weight>, b: nat)
    requires b >= 1 && DistinctNames(ws)
    ensures AllNamesDiffer(Buckets(Split(ws, b), b))
  {
    var cs := Split(ws, b);
    SplitFits(ws, b);
    SplitNames(ws, b);
    BucketNamesAt(cs, |cs|, b);
    assert cs[..|cs|] == cs;
  }

  // ------------------------------------------------------- number of buckets

  function Total(buckets: seq<Bucket>): nat {
    if buckets == [] then 0 else Total(buckets[..|buckets| - 1]) + Used(buckets[|buckets| - 1])
  }

  function ByteCount(cs: seq<Chunk>): nat {
    if cs == [] then 0 else ByteCount(cs[..|cs| - 1]) + cs[|cs| - 1].meta.chunkSize
  }

  lemma {:induction false} TotalSnoc(buckets: seq<Bucket>, bucket: Bucket)
    ensures Total(buckets + [bucket]) == Total(buckets) + Used(bucket)
  {
    assert (buckets + [bucket])[..|buckets|] == buckets;
  }

  /** The buckets hold exactly the bytes of the chunks. */
  lemma {:induction false} TotalIsByteCount(cs: seq<Chunk>, b: nat)
    ensures Total(Buckets(cs, b)) == ByteCount(cs)
    decreases |cs|
  {
    if cs == [] {
      TotalSnoc([], []);
    } else {
      var pre, c := cs[..|cs| - 1], cs[|cs| - 1];
      var p := Pack(pre, b);
      TotalIsByteCount(pre, b);
      TotalSnoc(p.closed, p.open);
      TotalSnoc(Pack(cs, b).closed, Pack(cs, b).open);
      if Used(p.open) + c.meta.chunkSize > b {
        UsedSnoc([], Place(c, 0));
        assert [] + [Place(c, 0)] == [Place(c, 0)];
      } else {
        UsedSnoc(p.open, Place(c, Used(p.open)));
      }
    }
  }

  /** A bucket was closed because the next one begins with a chunk that did not fit. */
  predicate Greedy(buckets: seq<Bucket>, b: nat) {
    forall k | 0 < k < |buckets| :: Used(buckets[k - 1]) + Used(buckets[k]) > b
  }

  lemma {:induction false} PackIsGreedy(cs: seq<Chunk>, b: nat)
    ensures Greedy(Buckets(cs, b), b)
    decreases |cs|
  {
    if cs != [] {
      var pre, c := cs[..|cs| - 1], cs[|cs| - 1];
      var p, q := Pack(pre, b), Pack(cs, b);
      PackIsGreedy(pre, b);
      assert Greedy(Sent(p), b);
      if Used(p.open) + c.meta.chunkSize > b {
        UsedSnoc([], Place(c, 0));
        assert [] + [Place(c, 0)] == [Place(c, 0)];
      } else {
        UsedSnoc(p.open, Place(c, Used(p.open)));
      }
      forall k | 0 < k < |Sent(q)| ensures Used(Sent(q)[k - 1]) + Used(Sent(q)[k]) > b {
        assert k < |p.closed| ==> Sent(q)[k - 1] == Sent(p)[k - 1] && Sent(q)[k] == Sent(p)[k];
        assert k == |p.closed| ==> Sent(q)[k - 1] == Sent(p)[k - 1];
        assert k == |p.closed| ==> Used(Sent(q)[k]) >= Used(Sent(p)[k]);
      }
    }
  }

  lemma {:induction false} TwoMore(n: int, b: nat)
    ensures n * b + 2 * b == (n + 2) * b
  {
  }

  lemma {:induction false} LastTwo(buckets: seq<Bucket>, b: nat)
    requires Greedy(buckets, b) && |buckets| >= 2
    ensures Greedy(buckets[..|buckets| - 2], b)
    ensures Total(buckets) >= Total(buckets[..|buckets| - 2]) + b + 1
  {
    hide Used;
    var n := |buckets|;
    assert buckets[..n - 1][..n - 2] == buckets[..n - 2];
    assert Used(buckets[(n - 1) - 1]) + Used(buckets[n - 1]) > b;
    var pre := buckets[..n - 2];
    assert forall k | 0 <= k < |pre| :: pre[k] == buckets[k];
  }

  lemma {:induction false} GreedyTotal(buckets: seq<Bucket>, b: nat)
    requires Greedy(buckets, b)
    ensures |buckets| % 2 == 0 ==> 2 * Total(buckets) >= |buckets| * b + |buckets|
    ensures |buckets| % 2 == 1 ==> 2 * Total(buckets) >= (|buckets| - 1) * b + |buckets| - 1
    decreases |buckets|
  {
    hide Used, Greedy, Total;
    var n := |buckets|;
    if n >= 2 {
      LastTwo(buckets, b);
      GreedyTotal(buckets[..n - 2], b);
      TwoMore(n - 2, b);
      TwoMore(n - 3, b);
    }
  }

  /** Of several buckets none is empty, not even the last. */
  lemma {:induction false} NoEmptyBucket(cs: seq<Chunk>, b: nat, k: nat)
    requires AllBounded(cs, b) && k < |Buckets(cs, b)| && |Buckets(cs, b)| >= 2
    ensures Buckets(cs, b)[k] != []
  {
    var buckets := Buckets(cs, b);
    PackIsGreedy(cs, b);
    PackLaidOut(cs, b);
    var other := if k > 0 then k - 1 else 1;
    assert LaidOut(buckets[other], b);
    if k > 0 {
      assert Used(buckets[k - 1]) + Used(buckets[k]) > b;
    } else {
      assert Used(buckets[1 - 1]) + Used(buckets[1]) > b;
    }
  }

  /** No more than about twice the buckets needed: n buckets, for n >= 2, carry more than half of
      what n - 1 full ones would. */
  lemma {:induction false} FewBuckets(cs: seq<Chunk>, b: nat)
    requires |Buckets(cs, b)| >= 2
    ensures (|Buckets(cs, b)| - 1) * b < 2 * ByteCount(cs)
  {
    hide Buckets, Greedy, Total, ByteCount;
    var n := |Buckets(cs, b)|;
    PackIsGreedy(cs, b);
    TotalIsByteCount(cs, b);
    GreedyTotal(Buckets(cs, b), b);
    OneMoreRow(n, b);
  }

  lemma {:induction false} OneMoreRow(n: int, b: nat)
    ensures n * b == (n - 1) * b + b
  {
  }

  function WeightBytes(ws: seq<Weight>): nat {
    if ws == [] then 0 else |ws[0].data| + WeightBytes(ws[1..])
  }

  lemma {:induction false} ByteCountAppend(a: seq<Chunk>, b: seq<Chunk>)
    ensures ByteCount(a + b) == ByteCount(a) + ByteCount(b)
  {
    if b == [] {
      assert a + b == a;
    } else {
      assert (a + b)[..|a + b| - 1] == a + b[..|b| - 1];
      ByteCountAppend(a, b[..|b| - 1]);
    }
  }

  lemma {:induction false} ChunkBytes(w: Weight, b: nat, from: nat)
    requires b >= 1 && from <= |w.data|
    ensures ByteCount(ChunksFrom(w, b, from)) == |w.data| - from
    decreases |w.data| - from
  {
    if from < |w.data| {
      var c := ChunkAt(w, b, from);
      ChunkBytes(w, b, from + c.meta.chunkSize);
      ByteCountAppend([c], ChunksFrom(w, b, from + c.meta.chunkSize));
      assert [c][..0] == [];
      assert ByteCount([c]) == c.meta.chunkSize;
    }
  }

  /** The chunks have as many bytes as the weights. */
  lemma {:induction false} SplitBytes(ws: seq<Weight>, b: nat)
    requires b >= 1
    ensures ByteCount(Split(ws, b)) == WeightBytes(ws)
  {
    if ws != [] {
      hide ByteCount, ChunksFrom;
      ChunkBytes(ws[0], b, 0);
      SplitBytes(ws[1..], b);
      ByteCountAppend(ChunksFrom(ws[0], b, 0), Split(ws[1..], b));
    }
  }

  /** So weights are sent in fewer buckets than twice the full ones their bytes take, and one more. */
  lemma {:induction false} FewBucketsForWeights(ws: seq<Weight>, b: nat)
    requires b >= 1 && |Buckets(Split(ws, b), b)| >= 2
    ensures (|Buckets(Split(ws, b), b)| - 1) * b < 2 * WeightBytes(ws)
  {
    hide Buckets, ByteCount, WeightBytes, Split;
    SplitBytes(ws, b);
    FewBuckets(Split(ws, b), b);
  }
}
