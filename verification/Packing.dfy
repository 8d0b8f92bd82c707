/** The packing loop that every engine's `send_weights` shares: chunks are placed greedily, one
    after the other, into a bucket; a bucket that cannot take the next chunk is closed. */
module Packing {
  import opened Arith
  import opened Options
  import opened Weights

  type Bucket = seq<Chunk>

  /** The bytes taken in a bucket: the running `offset`. */
  function Used(bucket: Bucket): nat {
    if bucket == [] then 0 else Used(bucket[..|bucket| - 1]) + bucket[|bucket| - 1].meta.chunkSize
  }

  function Place(c: Chunk, at: nat): Chunk {
    c.(meta := c.meta.(offset := Some(at)))
  }

  /** A chunk as the splitter made it. */
  function Unplaced(c: Chunk): Chunk {
    c.(meta := c.meta.(offset := None))
  }

  datatype Packed = Packed(closed: seq<Bucket>, open: Bucket)

  function PackStep(p: Packed, c: Chunk, b: nat): Packed {
    if Used(p.open) + c.meta.chunkSize > b
    then Packed(p.closed + [p.open], [Place(c, 0)])
    else p.(open := p.open + [Place(c, Used(p.open))])
  }

  /** The buckets after the chunks `cs`. */
  function Pack(cs: seq<Chunk>, b: nat): Packed {
    if cs == [] then Packed([], []) else PackStep(Pack(cs[..|cs| - 1], b), cs[|cs| - 1], b)
  }

  /** The buckets sent: the closed ones and the last one, which is sent whatever it holds. */
  function Buckets(cs: seq<Chunk>, b: nat): seq<Bucket> {
    Sent(Pack(cs, b))
  }

  lemma {:induction false} PackNext(cs: seq<Chunk>, i: nat, b: nat)
    requires i < |cs|
    ensures Pack(cs[..i + 1], b) == PackStep(Pack(cs[..i], b), cs[i], b)
  {
    assert cs[..i + 1][..i] == cs[..i];
  }

  lemma {:induction false} UsedSnoc(bucket: Bucket, c: Chunk)
    ensures Used(bucket + [c]) == Used(bucket) + c.meta.chunkSize
  {
    assert (bucket + [c])[..|bucket|] == bucket;
  }

  // ------------------------------------------------------- layout of one bucket

  /** The chunks lie one after the other from offset 0 and end within `b`. */
  predicate LaidOut(bucket: Bucket, b: nat) {
    && Used(bucket) <= b
    && forall i | 0 <= i < |bucket| :: bucket[i].meta.offset == Some(Used(bucket[..i])) && Bounded(bucket[i], b)
  }

  lemma {:induction false} UsedGrows(bucket: Bucket, i: nat)
    requires i <= |bucket|
    ensures Used(bucket[..i]) <= Used(bucket)
    ensures i < |bucket| ==> Used(bucket[..i]) + bucket[i].meta.chunkSize <= Used(bucket)
    decreases |bucket|
  {
    if i == |bucket| {
      assert bucket[..i] == bucket;
    } else {
      UsedGrows(bucket[..|bucket| - 1], i);
      assert bucket[..|bucket| - 1][..i] == bucket[..i];
    }
  }

  lemma {:induction false} LaidOutSnoc(bucket: Bucket, c: Chunk, b: nat)
    requires LaidOut(bucket, b) && Bounded(c, b) && Used(bucket) + c.meta.chunkSize <= b
    ensures LaidOut(bucket + [Place(c, Used(bucket))], b)
  {
    var bucket' := bucket + [Place(c, Used(bucket))];
    UsedSnoc(bucket, Place(c, Used(bucket)));
    forall i | 0 <= i < |bucket'|
      ensures bucket'[i].meta.offset == Some(Used(bucket'[..i])) && Bounded(bucket'[i], b)
    {
      if i < |bucket| {
        assert bucket'[..i] == bucket[..i] && bucket'[i] == bucket[i];
      } else {
        assert bucket'[..i] == bucket;
      }
    }
  }

  /** Every bucket is laid out within its size, and only the last one can be empty. */
  lemma {:induction false} PackLaidOut(cs: seq<Chunk>, b: nat)
    requires AllBounded(cs, b)
    ensures LaidOut(Pack(cs, b).open, b) && (cs != [] ==> Pack(cs, b).open != [])
    ensures forall k | 0 <= k < |Pack(cs, b).closed| ::
              LaidOut(Pack(cs, b).closed[k], b) && Pack(cs, b).closed[k] != []
    decreases |cs|
  {
    if cs != [] {
      var pre, c := cs[..|cs| - 1], cs[|cs| - 1];
      var p := Pack(pre, b);
      PackLaidOut(pre, b);
      assert Bounded(c, b);
      if Used(p.open) + c.meta.chunkSize > b {
        assert LaidOut([], b);
        LaidOutSnoc([], c, b);
        assert [] + [Place(c, 0)] == [Place(c, 0)];
        assert p.open != [];
      } else {
        LaidOutSnoc(p.open, c, b);
      }
    }
  }

  /** No bucket holds an empty chunk unless there was one. */
  lemma {:induction false} PackFits(cs: seq<Chunk>, b: nat)
    requires AllFitting(cs, b)
    ensures forall k, i | 0 <= k < |Buckets(cs, b)| && 0 <= i < |Buckets(cs, b)[k]| :: Fitting(Buckets(cs, b)[k][i], b)
    decreases |cs|
  {
    if cs != [] {
      var pre, c := cs[..|cs| - 1], cs[|cs| - 1];
      PackFits(pre, b);
      assert Fitting(c, b);
      var before, after := Buckets(pre, b), Buckets(cs, b);
      forall k, i | 0 <= k < |after| && 0 <= i < |after[k]| ensures Fitting(after[k][i], b) {
        assert k < |before| && i < |before[k]| ==> after[k][i] == before[k][i];
      }
    }
  }

  // ------------------------------------------------------- nothing lost, nothing reordered

  function Flatten(buckets: seq<Bucket>): seq<Chunk> {
    if buckets == [] then [] else Flatten(buckets[..|buckets| - 1]) + buckets[|buckets| - 1]
  }

  function UnplacedAll(cs: seq<Chunk>): (r: seq<Chunk>)
    ensures |r| == |cs|
  {
    seq(|cs|, i requires 0 <= i < |cs| => Unplaced(cs[i]))
  }

  lemma {:induction false} FlattenSnoc(buckets: seq<Bucket>, bucket: Bucket)
    ensures Flatten(buckets + [bucket]) == Flatten(buckets) + bucket
  {
    assert (buckets + [bucket])[..|buckets|] == buckets;
  }

  function Placed(p: Packed, c: Chunk, b: nat): Chunk {
    if Used(p.open) + c.meta.chunkSize > b then Place(c, 0) else Place(c, Used(p.open))
  }

  function Sent(p: Packed): seq<Bucket> {
    p.closed + [p.open]
  }

  lemma {:induction false} FlattenStep(p: Packed, c: Chunk, b: nat)
    ensures Flatten(Sent(PackStep(p, c, b))) == Flatten(Sent(p)) + [Placed(p, c, b)]
  {
    FlattenSnoc(p.closed, p.open);
    if Used(p.open) + c.meta.chunkSize > b {
      FlattenSnoc(Sent(p), [Place(c, 0)]);
    } else {
      FlattenSnoc(p.closed, p.open + [Placed(p, c, b)]);
    }
  }

  lemma {:induction false} UnplacedSnoc(cs: seq<Chunk>, c: Chunk)
    ensures UnplacedAll(cs + [c]) == UnplacedAll(cs) + [Unplaced(c)]
  {
  }

  lemma {:induction false} PlacedUnplaced(p: Packed, c: Chunk, b: nat)
    requires c.meta.offset == None
    ensures Unplaced(Placed(p, c, b)) == c
  {
  }

  lemma {:induction false} PackNothing(b: nat)
    ensures UnplacedAll(Flatten(Buckets([], b))) == []
  {
    FlattenSnoc([], []);
  }

  /** Concatenating the buckets gives the chunks back, each exactly once and in order. */
  lemma {:induction false} PackKeepsAll(cs: seq<Chunk>, b: nat)
    requires forall i | 0 <= i < |cs| :: cs[i].meta.offset == None
    ensures UnplacedAll(Flatten(Buckets(cs, b))) == cs
    decreases |cs|
  {
    hide UnplacedAll, Flatten, PackStep, Placed, Unplaced, Used;
    if cs == [] {
      PackNothing(b);
    } else {
      var pre, c := cs[..|cs| - 1], cs[|cs| - 1];
      PackKeepsAll(pre, b);
      FlattenStep(Pack(pre, b), c, b);
      UnplacedSnoc(Flatten(Buckets(pre, b)), Placed(Pack(pre, b), c, b));
      PlacedUnplaced(Pack(pre, b), c, b);
      assert cs == pre + [c];
    }
  }

  lemma {:induction false} SplitUnplaced(ws: seq<Weight>, b: nat)
    requires b >= 1
    ensures forall i | 0 <= i < |Split(ws, b)| :: Split(ws, b)[i].meta.offset == None
  {
    if ws != [] {
      ChunksUnplaced(ws[0], b, 0);
      SplitUnplaced(ws[1..], b);
    }
  }

  lemma {:induction false} ChunksUnplaced(w: Weight, b: nat, from: nat)
    requires b >= 1 && from <= |w.data|
    ensures forall i | 0 <= i < |ChunksFrom(w, b, from)| :: ChunksFrom(w, b, from)[i].meta.offset == None
    decreases |w.data| - from
  {
    if from < |w.data| {
      ChunksUnplaced(w, b, from + ChunkAt(w, b, from).meta.chunkSize);
    }
  }

  /** The merger reads no bucket offset, so it treats placed chunks as the splitter's own. */
  lemma {:induction false} MergeIgnoresPlace(r: MergeRun, cs: seq<Chunk>, b: nat, junk: Junk)
    ensures MergeFrom(r, UnplacedAll(cs), b, junk) == MergeFrom(r, cs, b, junk)
    decreases |cs|
  {
    if cs != [] {
      var m := MergeStep(r, cs[0], b, junk);
      assert UnplacedAll(cs)[0] == Unplaced(cs[0]) && UnplacedAll(cs)[1..] == UnplacedAll(cs[1..]);
      assert MergeStep(r, Unplaced(cs[0]), b, junk) == m;
      if m.Ok? {
        MergeIgnoresPlace(m.run, cs[1..], b, junk);
      }
    }
  }

  /** Split, pack, concatenate, merge: the weights themselves. */
  lemma {:induction false} MergeUndoesPacking(ws: seq<Weight>, b: nat, junk: Junk)
    requires b >= 1 && Sendable(ws)
    ensures MergeAll(Flatten(Buckets(Split(ws, b), b)), b, junk) == Ok(MergeRun(Idle, ws))
  {
    SplitUnplaced(ws, b);
    PackKeepsAll(Split(ws, b), b);
    MergeIgnoresPlace(START, Flatten(Buckets(Split(ws, b), b)), b, junk);
    MergeUndoesSplit(ws, b, junk);
  }

  // ------------------------------------------------------- bucket against buffer

  function Metas(bucket: Bucket): (r: seq<TensorMeta>)
    ensures |r| == |bucket|
  {
    seq(|bucket|, i requires 0 <= i < |bucket| => bucket[i].meta)
  }

  /** The buffer holds every chunk of the bucket at its offset. */
  predicate Holds(buf: seq<Byte>, bucket: Bucket) {
    forall i | 0 <= i < |bucket| ::
      && bucket[i].meta.offset.Some?
      && bucket[i].meta.offset.value + |bucket[i].bytes| <= |buf|
      && |bucket[i].bytes| == bucket[i].meta.chunkSize
      && buf[bucket[i].meta.offset.value..][..|bucket[i].bytes|] == bucket[i].bytes
  }

  /** `send_buf[offset : offset + chunk_size]`; a slice that ends outside the buffer is cut off. */
  function View(m: TensorMeta, buf: seq<Byte>): Chunk {
    var at := Min(if m.offset.Some? then m.offset.value else 0, |buf|);
    Chunk(m, buf[at..][..Min(m.chunkSize, |buf| - at)])
  }

  /** What a receiver yields from a buffer. */
  function Unpack(ms: seq<TensorMeta>, buf: seq<Byte>): (r: seq<Chunk>)
    ensures |r| == |ms|
  {
    seq(|ms|, i requires 0 <= i < |ms| => View(ms[i], buf))
  }

  /** Unpacking a buffer that holds a bucket gives the bucket. */
  lemma {:induction false} UnpackHeld(buf: seq<Byte>, bucket: Bucket)
    requires Holds(buf, bucket)
    ensures Unpack(Metas(bucket), buf) == bucket
  {
    forall i | 0 <= i < |bucket| ensures Unpack(Metas(bucket), buf)[i] == bucket[i] {
      assert View(bucket[i].meta, buf).bytes == bucket[i].bytes;
    }
  }

  /** Writing the next chunk behind the others keeps the others. */
  lemma {:induction false} HoldsSnoc(buf: seq<Byte>, bucket: Bucket, c: Chunk, b: nat)
    requires LaidOut(bucket, b) && Holds(buf, bucket) && |buf| == b
    requires Bounded(c, b) && Used(bucket) + c.meta.chunkSize <= b
    ensures Holds(Written(buf, Used(bucket), c.bytes), bucket + [Place(c, Used(bucket))])
  {
    var at := Used(bucket);
    var buf' := Written(buf, at, c.bytes);
    var bucket' := bucket + [Place(c, at)];
    forall i | 0 <= i < |bucket'|
      ensures bucket'[i].meta.offset.Some?
      ensures bucket'[i].meta.offset.value + |bucket'[i].bytes| <= |buf'|
      ensures |bucket'[i].bytes| == bucket'[i].meta.chunkSize
      ensures buf'[bucket'[i].meta.offset.value..][..|bucket'[i].bytes|] == bucket'[i].bytes
    {
      if i < |bucket| {
        assert bucket'[i] == bucket[i];
        UsedGrows(bucket, i);
        var o, n := bucket[i].meta.offset.value, |bucket[i].bytes|;
        assert o + n <= at;
        assert buf'[o..][..n] == buf'[..at][o..][..n] == buf[..at][o..][..n] == buf[o..][..n];
      } else {
        assert buf'[at..][..|c.bytes|] == buf'[at..at + |c.bytes|];
      }
    }
  }
}
