/** Weights as the checkpoint engines see them, and the two generators at both ends of
    every engine: the splitter, which cuts each weight into chunks of at most one bucket,
    and the merger, which puts the chunks of a weight together again. */
module Weights {
  import opened Arith
  import opened Options
  import opened Shapes

  newtype Byte = b: int | 0 <= b < 256

  datatype DType = DType(name: string, itemsize: nat)

  /** The byte size that the merger recomputes from the metadata of a chunk. */
  function ByteSize(shape: seq<nat>, dtype: DType): nat {
    Numel(shape) * dtype.itemsize
  }

  /** A named tensor with its elements as bytes, in row-major order. */
  datatype Weight = Weight(name: string, shape: seq<nat>, dtype: DType, data: seq<Byte>) {
    predicate Valid() {
      |data| == ByteSize(shape, dtype)
    }
  }

  /** `offset` is the place in the bucket; the splitter leaves it None. */
  datatype TensorMeta = TensorMeta(
    name: string, shape: seq<nat>, dtype: DType, chunkOffset: nat, chunkSize: nat, offset: Option<nat>)

  datatype Chunk = Chunk(meta: TensorMeta, bytes: seq<Byte>)

  // ------------------------------------------------------------------ splitting

  function ChunkAt(w: Weight, b: nat, from: nat): Chunk
    requires from <= |w.data|
  {
    var size := Min(b, |w.data| - from);
    Chunk(TensorMeta(w.name, w.shape, w.dtype, from, size, None), w.data[from..from + size])
  }

  /** The chunks of `w` from byte `from` on. */
  function ChunksFrom(w: Weight, b: nat, from: nat): seq<Chunk>
    requires b >= 1 && from <= |w.data|
    decreases |w.data| - from
  {
    if from == |w.data| then [] else
    var c := ChunkAt(w, b, from);
    [c] + ChunksFrom(w, b, from + c.meta.chunkSize)
  }

  function Split(ws: seq<Weight>, b: nat): seq<Chunk>
    requires b >= 1
  {
    if ws == [] then [] else ChunksFrom(ws[0], b, 0) + Split(ws[1..], b)
  }

  lemma {:induction false} SplitSnoc(ws: seq<Weight>, i: nat, b: nat)
    requires b >= 1 && i < |ws|
    ensures Split(ws[i..], b) == ChunksFrom(ws[i], b, 0) + Split(ws[i + 1..], b)
  {
    assert ws[i..][0] == ws[i] && ws[i..][1..] == ws[i + 1..];
  }

  /** The inner loop of `split_weight_chunks`: one weight, its yields collected. */
  method SplitOne(w: Weight, b: nat) returns (out: seq<Chunk>)
    requires b >= 1
    ensures out == ChunksFrom(w, b, 0)
  {
    out := [];
    var chunkOffset := 0;
    while chunkOffset < |w.data|
      invariant chunkOffset <= |w.data|
      invariant out + ChunksFrom(w, b, chunkOffset) == ChunksFrom(w, b, 0)
    {
      var chunkSize := Min(b, |w.data| - chunkOffset);
      var meta := TensorMeta(w.name, w.shape, w.dtype, chunkOffset, chunkSize, None);
      var c := Chunk(meta, w.data[chunkOffset..chunkOffset + chunkSize]);
      ghost var rest := ChunksFrom(w, b, chunkOffset + chunkSize);
      assert out + ([c] + rest) == (out + [c]) + rest;
      out := out + [c];
      chunkOffset := chunkOffset + chunkSize;
    }
  }

  /** The generator `split_weight_chunks`. */
  method SplitWeightChunks(ws: seq<Weight>, b: nat) returns (out: seq<Chunk>)
    requires b >= 1
    ensures out == Split(ws, b)
  {
    out := [];
    assert ws[0..] == ws && [] + Split(ws, b) == Split(ws, b);
    for i := 0 to |ws|
      invariant out + Split(ws[i..], b) == Split(ws, b)
    {
      hide Split, ChunksFrom;
      var cs := SplitOne(ws[i], b);
      SplitSnoc(ws, i, b);
      assert out + (cs + Split(ws[i + 1..], b)) == (out + cs) + Split(ws[i + 1..], b);
      out := out + cs;
    }
    assert ws[|ws|..] == [];
  }

  /** A chunk that any bucket of size `b` can hold, with its metadata telling the truth. */
  predicate Bounded(c: Chunk, b: nat) {
    c.meta.chunkSize <= b && |c.bytes| == c.meta.chunkSize
  }

  predicate AllBounded(cs: seq<Chunk>, b: nat) {
    forall i | 0 <= i < |cs| :: Bounded(cs[i], b)
  }

  /** One that is not empty either. */
  predicate Fitting(c: Chunk, b: nat) {
    1 <= c.meta.chunkSize && Bounded(c, b)
  }

  predicate AllFitting(cs: seq<Chunk>, b: nat) {
    forall i | 0 <= i < |cs| :: Fitting(cs[i], b)
  }

  lemma {:induction false} ChunksFromFit(w: Weight, b: nat, from: nat)
    requires b >= 1 && from <= |w.data|
    ensures AllFitting(ChunksFrom(w, b, from), b)
    decreases |w.data| - from
  {
    if from < |w.data| {
      ChunksFromFit(w, b, from + ChunkAt(w, b, from).meta.chunkSize);
    }
  }

  /** Every chunk is non-empty and fits an empty bucket, so no bucket is ever flushed empty. */
  lemma {:induction false} SplitFits(ws: seq<Weight>, b: nat)
    requires b >= 1
    ensures AllFitting(Split(ws, b), b)
  {
    if ws != [] {
      ChunksFromFit(ws[0], b, 0);
      SplitFits(ws[1..], b);
    }
  }

  // ------------------------------------------------------------------ merging

  /** The variables the merger carries between chunks of one large weight. */
  datatype MergeState =
    | Idle
    | Merging(name: string, shape: seq<nat>, dtype: DType, buffer: seq<Byte>, offset: nat)

  datatype MergeRun = MergeRun(st: MergeState, out: seq<Weight>)

  datatype MergeError = NotIdle | OffsetNotZero | WrongName | WrongOffset | BadSize

  datatype Merged = Ok(run: MergeRun) | Failed(error: MergeError)

  /** What uninitialised memory happens to hold. */
  type Junk = nat -> Byte

  function Allocate(n: nat, junk: Junk): (buf: seq<Byte>)
    ensures |buf| == n
  {
    seq(n, i requires i >= 0 => junk(i))
  }

  function Written(buf: seq<Byte>, off: nat, bytes: seq<Byte>): (r: seq<Byte>)
    requires off + |bytes| <= |buf|
    ensures |r| == |buf| && r[off..off + |bytes|] == bytes
    ensures r[..off] == buf[..off] && r[off + |bytes|..] == buf[off + |bytes|..]
  {
    buf[..off] + bytes + buf[off + |bytes|..]
  }

  /** The state in which the chunk is written: a fresh buffer for the first chunk of a weight. */
  function Begin(st: MergeState, c: Chunk, junk: Junk): MergeState {
    if st.Idle? then
      Merging(c.meta.name, c.meta.shape, c.meta.dtype, Allocate(ByteSize(c.meta.shape, c.meta.dtype), junk), 0)
    else st
  }

  /** Write a chunk of a large weight and hand the weight out with its last chunk. */
  function MergePart(r: MergeRun, c: Chunk): Merged
    requires r.st.Merging?
  {
    var st := r.st;
    if c.meta.name != st.name then Failed(WrongName)
    else if st.offset != c.meta.chunkOffset then Failed(WrongOffset)
    else if |c.bytes| != c.meta.chunkSize || st.offset + |c.bytes| > |st.buffer| then Failed(BadSize)
    else
      var buffer := Written(st.buffer, st.offset, c.bytes);
      if c.meta.chunkOffset + c.meta.chunkSize == ByteSize(c.meta.shape, c.meta.dtype)
        then Ok(MergeRun(Idle, r.out + [Weight(st.name, st.shape, st.dtype, buffer)]))
      else Ok(r.(st := st.(buffer := buffer, offset := st.offset + c.meta.chunkSize)))
  }

  /** The body of the merger's loop for one chunk. */
  function MergeStep(r: MergeRun, c: Chunk, b: nat, junk: Junk): Merged {
    var nbytes := ByteSize(c.meta.shape, c.meta.dtype);
    if nbytes <= b then
      if !r.st.Idle? then Failed(NotIdle)
      else if |c.bytes| != nbytes then Failed(BadSize)
      else Ok(r.(out := r.out + [Weight(c.meta.name, c.meta.shape, c.meta.dtype, c.bytes)]))
    else if r.st.Idle? && c.meta.chunkOffset != 0 then Failed(OffsetNotZero)
    else MergePart(r.(st := Begin(r.st, c, junk)), c)
  }

  /** The merger run over `cs` from run `r` on; the first failed assertion ends it. */
  function MergeFrom(r: MergeRun, cs: seq<Chunk>, b: nat, junk: Junk): Merged
    decreases |cs|
  {
    if cs == [] then Ok(r) else
    match MergeStep(r, cs[0], b, junk)
    case Failed(e) => Failed(e)
    case Ok(r') => MergeFrom(r', cs[1..], b, junk)
  }

  const START := MergeRun(Idle, [])

  function MergeAll(cs: seq<Chunk>, b: nat, junk: Junk): Merged {
    MergeFrom(START, cs, b, junk)
  }

  /** The merger is in the middle of `w`, with the first `from` bytes in place. */
  predicate Halfway(st: MergeState, w: Weight, from: nat) {
    if from == 0 then st.Idle? else
    && st.Merging? && st.name == w.name && st.shape == w.shape && st.dtype == w.dtype
    && |st.buffer| == |w.data| && st.offset == from <= |w.data| && st.buffer[..from] == w.data[..from]
  }

  lemma {:induction false} MergeLargeStep(r: MergeRun, w: Weight, b: nat, from: nat, junk: Junk)
    requires b >= 1 && w.Valid() && b < |w.data| && from < |w.data| && Halfway(r.st, w, from)
    ensures var c := ChunkAt(w, b, from);
            var next := from + c.meta.chunkSize;
            var m := MergeStep(r, c, b, junk);
            && m.Ok?
            && (if next == |w.data| then m.run == MergeRun(Idle, r.out + [w])
                else m.run.out == r.out && Halfway(m.run.st, w, next))
  {
    var c := ChunkAt(w, b, from);
    var next := from + c.meta.chunkSize;
    var st := Begin(r.st, c, junk);
    assert st.buffer[..from] == w.data[..from];
    var buffer := Written(st.buffer, from, c.bytes);
    assert buffer[..next] == buffer[..from] + buffer[from..next] == w.data[..next];
    if next == |w.data| {
      assert buffer == buffer[..next] && w.data == w.data[..next];
    }
  }

  /** The chunks of one weight larger than a bucket, from byte `from` on. */
  lemma {:induction false} MergeLarge(r: MergeRun, w: Weight, b: nat, from: nat, junk: Junk)
    requires b >= 1 && w.Valid() && b < |w.data| && from < |w.data| && Halfway(r.st, w, from)
    ensures MergeFrom(r, ChunksFrom(w, b, from), b, junk) == Ok(MergeRun(Idle, r.out + [w]))
    decreases |w.data| - from
  {
    var c := ChunkAt(w, b, from);
    var next := from + c.meta.chunkSize;
    MergeLargeStep(r, w, b, from, junk);
    assert ChunksFrom(w, b, from)[1..] == ChunksFrom(w, b, next);
    if next < |w.data| {
      MergeLarge(MergeStep(r, c, b, junk).run, w, b, next, junk);
    }
  }

  lemma {:induction false} MergeOne(r: MergeRun, w: Weight, b: nat, junk: Junk)
    requires b >= 1 && w.Valid() && w.data != [] && r.st.Idle?
    ensures MergeFrom(r, ChunksFrom(w, b, 0), b, junk) == Ok(MergeRun(Idle, r.out + [w]))
  {
    if |w.data| <= b {
      var c := ChunkAt(w, b, 0);
      assert c.bytes == w.data;
      assert ChunksFrom(w, b, |w.data|) == [];
      assert ChunksFrom(w, b, 0) == [c];
      assert MergeFrom(r, [c], b, junk) == MergeStep(r, c, b, junk);
    } else {
      MergeLarge(r, w, b, 0, junk);
    }
  }

  lemma {:induction false} MergeAppend(r: MergeRun, xs: seq<Chunk>, ys: seq<Chunk>, b: nat, junk: Junk)
    ensures MergeFrom(r, xs + ys, b, junk) ==
            match MergeFrom(r, xs, b, junk)
            case Failed(e) => Failed(e)
            case Ok(r') => MergeFrom(r', ys, b, junk)
    decreases |xs|
  {
    if xs == [] {
      assert xs + ys == ys;
    } else {
      var m := MergeStep(r, xs[0], b, junk);
      assert (xs + ys)[0] == xs[0] && (xs + ys)[1..] == xs[1..] + ys;
      if m.Ok? {
        MergeAppend(m.run, xs[1..], ys, b, junk);
      }
    }
  }

  predicate Sendable(ws: seq<Weight>) {
    forall i | 0 <= i < |ws| :: ws[i].Valid() && ws[i].data != []
  }

  lemma {:induction false} MergeSplitStep(r: MergeRun, r': MergeRun, ws: seq<Weight>, b: nat, junk: Junk)
    requires b >= 1 && Sendable(ws) && r.st.Idle? && ws != [] && r' == MergeRun(Idle, r.out + [ws[0]])
    ensures MergeFrom(r, Split(ws, b), b, junk) == MergeFrom(r', Split(ws[1..], b), b, junk)
  {
    hide MergeFrom, ChunksFrom;
    MergeOne(r, ws[0], b, junk);
    MergeAppend(r, ChunksFrom(ws[0], b, 0), Split(ws[1..], b), b, junk);
  }

  lemma {:induction false} MergeNothing(r: MergeRun, b: nat, junk: Junk)
    requires b >= 1
    ensures MergeFrom(r, Split([], b), b, junk) == Ok(r)
  {
  }

  lemma {:induction false} MergeSplitFrom(r: MergeRun, ws: seq<Weight>, b: nat, junk: Junk)
    requires b >= 1 && Sendable(ws) && r.st.Idle?
    ensures MergeFrom(r, Split(ws, b), b, junk) == Ok(MergeRun(Idle, r.out + ws))
    decreases |ws|
  {
    hide MergeFrom, Split;
    if ws == [] {
      MergeNothing(r, b, junk);
      assert r.out + ws == r.out;
    } else {
      var r' := MergeRun(Idle, r.out + [ws[0]]);
      MergeSplitStep(r, r', ws, b, junk);
      MergeSplitFrom(r', ws[1..], b, junk);
      assert r.out + ws == r'.out + ws[1..];
    }
  }

  /** Merging undoes splitting for every bucket size and whatever the allocated memory held
      before, and no assertion of the merger fires. */
  lemma {:induction false} MergeUndoesSplit(ws: seq<Weight>, b: nat, junk: Junk)
    requires b >= 1 && Sendable(ws)
    ensures MergeAll(Split(ws, b), b, junk) == Ok(MergeRun(Idle, ws))
  {
    MergeSplitFrom(START, ws, b, junk);
    assert START.out + ws == ws;
  }

  /** A weight without bytes yields no chunk, so it never reaches the other end: the round trip
      holds exactly for lists without such weights. */
  lemma {:induction false} RoundTripNeedsBytes(ws: seq<Weight>, b: nat, junk: Junk)
    requires b >= 1 && forall i | 0 <= i < |ws| :: ws[i].Valid()
    ensures MergeAll(Split(ws, b), b, junk) == Ok(MergeRun(Idle, ws)) <==> Sendable(ws)
  {
    SplitSkipsEmpty(ws, b);
    MergeUndoesSplit(NonEmpty(ws), b, junk);
    KeptAll(ws);
  }

  function NonEmpty(ws: seq<Weight>): (r: seq<Weight>)
    ensures |r| <= |ws|
    ensures forall i | 0 <= i < |r| :: r[i] in ws && r[i].data != []
  {
    if ws == [] then [] else
    (if ws[0].data == [] then [] else [ws[0]]) + NonEmpty(ws[1..])
  }

  lemma {:induction false} KeptAll(ws: seq<Weight>)
    requires forall i | 0 <= i < |ws| :: ws[i].Valid()
    ensures NonEmpty(ws) == ws <==> Sendable(ws)
  {
    if ws != [] {
      KeptAll(ws[1..]);
      assert NonEmpty(ws) == ws ==> Sendable(ws);
      if Sendable(ws) {
        assert ws[0].data != [];
        forall i | 0 <= i < |ws[1..]| ensures ws[1..][i].Valid() && ws[1..][i].data != [] {
          assert ws[1..][i] == ws[i + 1];
        }
        assert ws == [ws[0]] + ws[1..];
      }
    }
  }

  lemma {:induction false} SplitSkipsEmpty(ws: seq<Weight>, b: nat)
    requires b >= 1
    ensures Split(NonEmpty(ws), b) == Split(ws, b)
  {
    if ws != [] {
      SplitSkipsEmpty(ws[1..], b);
      if ws[0].data == [] {
        assert ChunksFrom(ws[0], b, 0) == [];
        assert NonEmpty(ws) == NonEmpty(ws[1..]);
      } else {
        assert NonEmpty(ws)[1..] == NonEmpty(ws[1..]);
      }
    }
  }

  lemma {:induction false} OutGrows(r: MergeRun, cs: seq<Chunk>, b: nat, junk: Junk)
    requires MergeFrom(r, cs, b, junk).Ok?
    ensures r.out <= MergeFrom(r, cs, b, junk).run.out
    decreases |cs|
  {
    if cs != [] {
      OutGrows(MergeStep(r, cs[0], b, junk).run, cs[1..], b, junk);
    }
  }

  /** What a receiver merged so far is a prefix of what it merges in the end. */
  lemma {:induction false} MergePrefix(cs: seq<Chunk>, n: nat, b: nat, junk: Junk)
    requires n <= |cs| && MergeAll(cs, b, junk).Ok?
    ensures MergeAll(cs[..n], b, junk).Ok?
    ensures MergeAll(cs[..n], b, junk).run.out <= MergeAll(cs, b, junk).run.out
  {
    MergeAppend(START, cs[..n], cs[n..], b, junk);
    assert cs[..n] + cs[n..] == cs;
    OutGrows(MergeAll(cs[..n], b, junk).run, cs[n..], b, junk);
  }

  /** The body of `merge_weight_chunks` for a chunk of a large weight, on the buffer in place. */
  method WriteSlice(buf: array<Byte>, off: nat, bytes: seq<Byte>)
    requires off + |bytes| <= buf.Length
    modifies buf
    ensures buf[..] == Written(old(buf[..]), off, bytes)
  {
    for i := 0 to |bytes|
      invariant buf[..off] == old(buf[..off]) && buf[off + |bytes|..] == old(buf[off + |bytes|..])
      invariant forall k | 0 <= k < i :: buf[off + k] == bytes[k]
    {
      buf[off + i] := bytes[i];
    }
    assert buf[..] == buf[..off] + buf[off..off + |bytes|] + buf[off + |bytes|..];
  }

  /** The frame of the generator `merge_weight_chunks`: its local variables between two chunks.
      A weight larger than a bucket is written chunk by chunk into one allocated buffer. */
  class Merger {
    const bucketSize: nat
    var idle: bool
    var name: string
    var shape: seq<nat>
    var dtype: DType
    var buffer: array<Byte>
    var offset: nat
    var out: seq<Weight>

    /** The frame as the run it has completed so far. */
    ghost function Run(): MergeRun
      reads this, buffer
    {
      MergeRun(if idle then Idle else Merging(name, shape, dtype, buffer[..], offset), out)
    }

    constructor (b: nat)
      ensures Run() == START && bucketSize == b && fresh(buffer)
    {
      bucketSize, idle, name, shape, dtype, offset, out := b, true, "", [], DType("", 0), 0, [];
      buffer := new Byte[0];
    }

    /** One round of the loop: the failed assertion, if any, and otherwise the next run. */
    method Feed(c: Chunk, junk: Junk) returns (error: Option<MergeError>)
      modifies this, buffer
      ensures buffer == old(buffer) || fresh(buffer)
      ensures match MergeStep(old(Run()), c, bucketSize, junk)
              case Failed(e) => error == Some(e)
              case Ok(r) => error == None && Run() == r
    {
      var nbytes := ByteSize(c.meta.shape, c.meta.dtype);
      if nbytes <= bucketSize {
        if !idle { return Some(NotIdle); }
        if |c.bytes| != nbytes { return Some(BadSize); }
        out := out + [Weight(c.meta.name, c.meta.shape, c.meta.dtype, c.bytes)];
        return None;
      }
      if idle {
        if c.meta.chunkOffset != 0 { return Some(OffsetNotZero); }
        idle, name, shape, dtype, offset := false, c.meta.name, c.meta.shape, c.meta.dtype, 0;
        buffer := new Byte[nbytes](i requires i >= 0 => junk(i));
        assert buffer[..] == Allocate(nbytes, junk);
      }
      error := Put(c);
    }

    /** The part of a round that writes a chunk of a large weight. */
    method Put(c: Chunk) returns (error: Option<MergeError>)
      requires !idle
      modifies this, buffer
      ensures buffer == old(buffer)
      ensures match MergePart(old(Run()), c)
              case Failed(e) => error == Some(e)
              case Ok(r) => error == None && Run() == r
    {
      if c.meta.name != name { return Some(WrongName); }
      if offset != c.meta.chunkOffset { return Some(WrongOffset); }
      if |c.bytes| != c.meta.chunkSize || offset + |c.bytes| > buffer.Length { return Some(BadSize); }
      WriteSlice(buffer, offset, c.bytes);
      offset := offset + c.meta.chunkSize;
      if c.meta.chunkOffset + c.meta.chunkSize == ByteSize(c.meta.shape, c.meta.dtype) {
        out := out + [Weight(name, shape, dtype, buffer[..])];
        idle := true;
      }
      return None;
    }
  }

  /** The loop of `merge_weight_chunks`, with its yields collected in the result. */
  method MergeWeightChunks(cs: seq<Chunk>, b: nat, junk: Junk) returns (result: Merged)
    ensures result == MergeAll(cs, b, junk)
  {
    var m := new Merger(b);
    for i := 0 to |cs|
      invariant fresh(m) && fresh(m.buffer) && m.bucketSize == b
      invariant MergeAll(cs, b, junk) == MergeFrom(m.Run(), cs[i..], b, junk)
    {
      assert cs[i..][0] == cs[i] && cs[i..][1..] == cs[i + 1..];
      var error := m.Feed(cs[i], junk);
      if error.Some? { return Failed(error.value); }
    }
    if m.idle {
      return Ok(MergeRun(Idle, m.out));
    }
    return Ok(MergeRun(Merging(m.name, m.shape, m.dtype, m.buffer[..], m.offset), m.out));
  }
}
