/** What the merger accepts, exactly: the chunk lists that carry whole weights, one after the other. */
module Merging {
  import opened Options
  import opened Shapes
  import opened Weights

  // ------------------------------------------------------------------ sizes

  /** The byte size of a weight, counted by the indices of its elements. */
  lemma {:induction false} ValidCounts(w: Weight, indices: set<seq<nat>>)
    requires forall ix :: ix in indices <==> IsIndex(w.shape, ix)
    ensures w.Valid() <==> |w.data| == |indices| * w.dtype.itemsize
  {
    NumelCounts(w.shape, indices);
  }

  /** A weight of any shape with as many bytes as its elements take survives splitting and merging. */
  lemma {:induction false} AnyShapeMerges(w: Weight, indices: set<seq<nat>>, b: nat, junk: Junk)
    requires forall ix :: ix in indices <==> IsIndex(w.shape, ix)
    requires b >= 1 && w.data != [] && |w.data| == |indices| * w.dtype.itemsize
    ensures MergeAll(Split([w], b), b, junk) == Ok(MergeRun(Idle, [w]))
  {
    ValidCounts(w, indices);
    MergeUndoesSplit([w], b, junk);
  }

  /** A matrix that fits a bucket is yielded from its single chunk. */
  lemma {:induction false} MatrixMerges(
    name: string, m: nat, n: nat, dtype: DType, data: seq<Byte>, b: nat, junk: Junk)
    requires |data| == m * n * dtype.itemsize <= b
    ensures MergeAll([Chunk(TensorMeta(name, [m, n], dtype, 0, |data|, None), data)], b, junk) ==
            Ok(MergeRun(Idle, [Weight(name, [m, n], dtype, data)]))
  {
    NumelOne(m);
    NumelOne(n);
    NumelConcat([m], [n]);
    assert [m] + [n] == [m, n];
    var c := Chunk(TensorMeta(name, [m, n], dtype, 0, |data|, None), data);
    assert ByteSize([m, n], dtype) == |data|;
    var w := Weight(name, [m, n], dtype, data);
    assert w.Valid() && [] + [w] == [w];
    OneMerges(START, [c], w, b, junk);
  }

  // ------------------------------------------------------------------ lists that carry weights

  predicate IsOf(c: Chunk, w: Weight) {
    c.meta.name == w.name && c.meta.shape == w.shape && c.meta.dtype == w.dtype
  }

  /** The bytes of `w` from position `from` on, and nothing wrong in the metadata. */
  predicate Piece(c: Chunk, w: Weight, from: nat) {
    && IsOf(c, w) && c.meta.chunkOffset == from && |c.bytes| == c.meta.chunkSize
    && from + |c.bytes| <= |w.data| && c.bytes == w.data[from..from + |c.bytes|]
  }

  /** Consecutive pieces of `w`, from position `from` to the end; only the last reaches it. */
  predicate Pieces(cs: seq<Chunk>, w: Weight, from: nat)
    decreases |cs|
  {
    && cs != [] && Piece(cs[0], w, from)
    && var next := from + |cs[0].bytes|;
       if |cs| == 1 then next == |w.data| else next < |w.data| && Pieces(cs[1..], w, next)
  }

  /** One weight: a chunk with all of it if it fits a bucket, and pieces of it otherwise. */
  predicate CarriesOne(cs: seq<Chunk>, w: Weight, b: nat) {
    && w.Valid()
    && if |w.data| <= b then |cs| == 1 && IsOf(cs[0], w) && cs[0].bytes == w.data else Pieces(cs, w, 0)
  }

  /** The chunks of these weights, one weight after the other. */
  ghost predicate Carries(cs: seq<Chunk>, ws: seq<Weight>, b: nat)
    decreases |ws|
  {
    if ws == [] then cs == []
    else exists n :: 0 < n <= |cs| && CarriesOne(cs[..n], ws[0], b) && Carries(cs[n..], ws[1..], b)
  }

  /** Chunks under one name have one shape and type. */
  predicate Uniform(cs: seq<Chunk>) {
    forall i, j | 0 <= i < |cs| && 0 <= j < |cs| && cs[i].meta.name == cs[j].meta.name ::
      cs[i].meta.shape == cs[j].meta.shape && cs[i].meta.dtype == cs[j].meta.dtype
  }

  // ------------------------------------------------------------------ they are accepted

  /** Before the first piece, or with the first `from` bytes of `w` in place. */
  predicate Within(st: MergeState, w: Weight, from: nat) {
    || (st.Idle? && from == 0)
    || (&& st.Merging? && st.name == w.name && st.shape == w.shape && st.dtype == w.dtype
        && |st.buffer| == |w.data| && st.offset == from <= |w.data| && st.buffer[..from] == w.data[..from])
  }

  lemma {:induction false} PieceStep(r: MergeRun, c: Chunk, w: Weight, from: nat, b: nat, junk: Junk)
    requires w.Valid() && |w.data| > b && Within(r.st, w, from) && Piece(c, w, from)
    ensures var next, m := from + |c.bytes|, MergeStep(r, c, b, junk);
            && m.Ok?
            && (if next == |w.data| then m.run == MergeRun(Idle, r.out + [w])
                else m.run.out == r.out && Within(m.run.st, w, next) && m.run.st.Merging?)
  {
    var next := from + |c.bytes|;
    var st := Begin(r.st, c, junk);
    assert st.buffer[..from] == w.data[..from];
    var buffer := Written(st.buffer, from, c.bytes);
    assert buffer[..next] == buffer[..from] + buffer[from..next] == w.data[..next];
    if next == |w.data| {
      assert buffer == buffer[..next] && w.data == w.data[..next];
    }
  }

  lemma {:induction false} PiecesMerge(r: MergeRun, cs: seq<Chunk>, w: Weight, from: nat, b: nat, junk: Junk)
    requires w.Valid() && |w.data| > b && Within(r.st, w, from) && Pieces(cs, w, from)
    ensures MergeFrom(r, cs, b, junk) == Ok(MergeRun(Idle, r.out + [w]))
    decreases |cs|
  {
    hide MergeStep, Piece, Within;
    PieceStep(r, cs[0], w, from, b, junk);
    if |cs| == 1 {
      assert cs[1..] == [];
    } else {
      PiecesMerge(MergeStep(r, cs[0], b, junk).run, cs[1..], w, from + |cs[0].bytes|, b, junk);
    }
  }

  lemma {:induction false} OneMerges(r: MergeRun, cs: seq<Chunk>, w: Weight, b: nat, junk: Junk)
    requires r.st.Idle? && CarriesOne(cs, w, b)
    ensures MergeFrom(r, cs, b, junk) == Ok(MergeRun(Idle, r.out + [w]))
  {
    if |w.data| <= b {
      assert cs[1..] == [];
    } else {
      PiecesMerge(r, cs, w, 0, b, junk);
    }
  }

  lemma {:induction false} NothingMerges(r: MergeRun, b: nat, junk: Junk)
    ensures MergeFrom(r, [], b, junk) == Ok(r)
  {
  }

  lemma {:induction false} CarriedMerges(r: MergeRun, cs: seq<Chunk>, ws: seq<Weight>, b: nat, junk: Junk)
    requires r.st.Idle? && Carries(cs, ws, b)
    ensures MergeFrom(r, cs, b, junk) == Ok(MergeRun(Idle, r.out + ws))
    decreases |ws|
  {
    hide MergeFrom, CarriesOne;
    if ws == [] {
      NothingMerges(r, b, junk);
      assert r.out + ws == r.out;
    } else {
      var n :| 0 < n <= |cs| && CarriesOne(cs[..n], ws[0], b) && Carries(cs[n..], ws[1..], b);
      var r' := MergeRun(Idle, r.out + [ws[0]]);
      OneMerges(r, cs[..n], ws[0], b, junk);
      MergeAppend(r, cs[..n], cs[n..], b, junk);
      assert cs[..n] + cs[n..] == cs;
      CarriedMerges(r', cs[n..], ws[1..], b, junk);
      assert r.out + ws == r'.out + ws[1..];
    }
  }

  // ------------------------------------------------------------------ nothing else is

  /** In the middle of a large weight, whose chunks to come have its shape. */
  predicate Middle(st: MergeState, cs: seq<Chunk>, b: nat) {
    && st.Merging? && |st.buffer| == ByteSize(st.shape, st.dtype) > b && st.offset <= |st.buffer|
    && forall i | 0 <= i < |cs| && cs[i].meta.name == st.name ::
         cs[i].meta.shape == st.shape && cs[i].meta.dtype == st.dtype
  }

  /** How the weight in the middle ends: after `n` more chunks, which are its pieces. */
  ghost predicate Ends(r: MergeRun, cs: seq<Chunk>, n: nat, w: Weight, b: nat, junk: Junk)
    requires r.st.Merging? && r.st.offset <= |r.st.buffer|
  {
    && 0 < n <= |cs| && w.Valid() && |w.data| == |r.st.buffer|
    && w.name == r.st.name && w.shape == r.st.shape && w.dtype == r.st.dtype
    && w.data[..r.st.offset] == r.st.buffer[..r.st.offset]
    && Pieces(cs[..n], w, r.st.offset)
    && MergeFrom(r, cs, b, junk) == MergeFrom(MergeRun(Idle, r.out + [w]), cs[n..], b, junk)
  }

  /** What a chunk that is accepted in the middle does. */
  lemma {:induction false} MiddleStep(r: MergeRun, cs: seq<Chunk>, b: nat, junk: Junk)
    requires cs != [] && Middle(r.st, cs, b) && MergeStep(r, cs[0], b, junk).Ok?
    ensures var c, st := cs[0], r.st;
            && c.meta.name == st.name && c.meta.shape == st.shape && c.meta.dtype == st.dtype
            && c.meta.chunkOffset == st.offset && |c.bytes| == c.meta.chunkSize
            && st.offset + |c.bytes| <= |st.buffer|
            && var next, buffer := st.offset + |c.bytes|, Written(st.buffer, st.offset, c.bytes);
               MergeStep(r, c, b, junk) ==
               if next == |st.buffer|
               then Ok(MergeRun(Idle, r.out + [Weight(st.name, st.shape, st.dtype, buffer)]))
               else Ok(r.(st := st.(buffer := buffer, offset := next)))
  {
    assert cs[0].meta.name == r.st.name ==> cs[0].meta.shape == r.st.shape;
  }

  lemma {:induction false} MiddleEnds(r: MergeRun, cs: seq<Chunk>, b: nat, junk: Junk) returns (n: nat, w: Weight)
    requires Middle(r.st, cs, b)
    requires MergeFrom(r, cs, b, junk).Ok? && MergeFrom(r, cs, b, junk).run.st.Idle?
    ensures Ends(r, cs, n, w, b, junk)
    decreases |cs|
  {
    hide MergeStep, Pieces;
    var st, c := r.st, cs[0];
    MiddleStep(r, cs, b, junk);
    var next, buffer := st.offset + |c.bytes|, Written(st.buffer, st.offset, c.bytes);
    if next == |st.buffer| {
      n, w := 1, Weight(st.name, st.shape, st.dtype, buffer);
      LastPiece(c, w, st.offset);
      assert cs[..1] == [c];
    } else {
      var r' := r.(st := st.(buffer := buffer, offset := next));
      var n', w' := MiddleEnds(r', cs[1..], b, junk);
      n, w := n' + 1, w';
      assert w.data[st.offset..next] == w.data[..next][st.offset..] == buffer[..next][st.offset..] == c.bytes;
      assert w.data[..st.offset] == w.data[..next][..st.offset] == buffer[..next][..st.offset];
      assert buffer[..next][..st.offset] == st.buffer[..st.offset];
      MorePieces(c, cs[1..][..n'], w, st.offset);
      assert cs[..n] == [c] + cs[1..][..n'];
      assert cs[n..] == cs[1..][n'..];
    }
  }

  lemma {:induction false} LastPiece(c: Chunk, w: Weight, from: nat)
    requires Piece(c, w, from) && from + |c.bytes| == |w.data|
    ensures Pieces([c], w, from)
  {
  }

  lemma {:induction false} MorePieces(c: Chunk, cs: seq<Chunk>, w: Weight, from: nat)
    requires Piece(c, w, from) && from + |c.bytes| < |w.data| && Pieces(cs, w, from + |c.bytes|)
    ensures Pieces([c] + cs, w, from)
  {
    assert ([c] + cs)[1..] == cs;
  }

  lemma {:induction false} UniformRest(cs: seq<Chunk>, n: nat)
    requires Uniform(cs) && n <= |cs|
    ensures Uniform(cs[n..])
  {
  }

  /** With nothing in the middle, the first chunk of a large weight counts as in the middle of it. */
  lemma {:induction false} LargeBegins(r: MergeRun, cs: seq<Chunk>, b: nat, junk: Junk)
    requires r.st.Idle? && cs != [] && Uniform(cs) && ByteSize(cs[0].meta.shape, cs[0].meta.dtype) > b
    requires MergeStep(r, cs[0], b, junk).Ok?
    ensures var r' := r.(st := Begin(r.st, cs[0], junk));
            && Middle(r'.st, cs, b) && r'.st.offset == 0 && r'.out == r.out
            && MergeFrom(r, cs, b, junk) == MergeFrom(r', cs, b, junk)
  {
  }

  lemma {:induction false} MergedIsCarried(r: MergeRun, cs: seq<Chunk>, b: nat, junk: Junk) returns (ws: seq<Weight>)
    requires r.st.Idle? && Uniform(cs)
    requires MergeFrom(r, cs, b, junk).Ok? && MergeFrom(r, cs, b, junk).run.st.Idle?
    ensures MergeFrom(r, cs, b, junk).run.out == r.out + ws && Carries(cs, ws, b)
    decreases |cs|
  {
    hide MergeFrom, CarriesOne, Carries, Uniform;
    if cs == [] {
      NothingMerges(r, b, junk);
      NothingCarried(b);
      ws := [];
    } else {
      var n, w := FirstCarried(r, cs, b, junk);
      UniformRest(cs, n);
      var r' := MergeRun(Idle, r.out + [w]);
      var rest := MergedIsCarried(r', cs[n..], b, junk);
      ws := [w] + rest;
      MoreCarried(cs, n, w, rest, b);
      assert r.out + ws == r'.out + rest;
    }
  }

  lemma {:induction false} NothingCarried(b: nat)
    ensures Carries([], [], b)
  {
  }

  lemma {:induction false} MoreCarried(cs: seq<Chunk>, n: nat, w: Weight, rest: seq<Weight>, b: nat)
    requires 0 < n <= |cs| && CarriesOne(cs[..n], w, b) && Carries(cs[n..], rest, b)
    ensures Carries(cs, [w] + rest, b)
  {
    hide CarriesOne;
    assert ([w] + rest)[1..] == rest;
  }

  lemma {:induction false} FirstCarried(r: MergeRun, cs: seq<Chunk>, b: nat, junk: Junk) returns (n: nat, w: Weight)
    requires r.st.Idle? && Uniform(cs) && cs != []
    requires MergeFrom(r, cs, b, junk).Ok? && MergeFrom(r, cs, b, junk).run.st.Idle?
    ensures 0 < n <= |cs| && CarriesOne(cs[..n], w, b)
    ensures MergeFrom(r, cs, b, junk) == MergeFrom(MergeRun(Idle, r.out + [w]), cs[n..], b, junk)
  {
    var c := cs[0];
    if ByteSize(c.meta.shape, c.meta.dtype) <= b {
      n, w := 1, Weight(c.meta.name, c.meta.shape, c.meta.dtype, c.bytes);
      assert cs[..1] == [c];
    } else {
      LargeBegins(r, cs, b, junk);
      n, w := MiddleEnds(r.(st := Begin(r.st, c, junk)), cs, b, junk);
    }
  }

  /** The merger accepts a list of chunks, and yields these weights with nothing left over, exactly when the
      list carries them. */
  lemma {:induction false} MergesExactly(cs: seq<Chunk>, ws: seq<Weight>, b: nat, junk: Junk)
    requires Uniform(cs)
    ensures MergeAll(cs, b, junk) == Ok(MergeRun(Idle, ws)) <==> Carries(cs, ws, b)
  {
    hide Carries, MergeFrom;
    if Carries(cs, ws, b) {
      CarriedMerges(START, cs, ws, b, junk);
      assert START.out + ws == ws;
    }
    if MergeAll(cs, b, junk) == Ok(MergeRun(Idle, ws)) {
      var ws' := MergedIsCarried(START, cs, b, junk);
      assert START.out + ws' == ws';
    }
  }
}
