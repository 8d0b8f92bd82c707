/** The assertion of `send_weights` that a name is not yet in the bucket: when it holds. */
module SendNames {
  import opened Options
  import opened Weights
  import opened Packing
  import opened PackingLaws
  import opened Sending
  import opened Dictionaries

  // ------------------------------------------------------- distinct buckets make it hold

  lemma {:induction false} StepExtends(p: Packed, c: Chunk, b: nat, k: nat)
    requires k <= |p.closed|
    ensures k < |Sent(PackStep(p, c, b))| && Sent(p)[k] <= Sent(PackStep(p, c, b))[k]
  {
    hide Used;
  }

  /** What is in the open bucket now is in the bucket that becomes of it. */
  lemma {:induction false} OpenStays(cs: seq<Chunk>, b: nat, i: nat, j: nat)
    requires i <= j <= |cs|
    ensures var k := |Pack(cs[..i], b).closed|;
            k < |Sent(Pack(cs[..j], b))| && Pack(cs[..i], b).open <= Sent(Pack(cs[..j], b))[k]
    decreases j
  {
    hide Pack, PackStep;
    if i < j {
      OpenStays(cs, b, i, j - 1);
      PackNext(cs, j - 1, b);
      StepExtends(Pack(cs[..j - 1], b), cs[j - 1], b, |Pack(cs[..i], b).closed|);
    }
  }

  lemma {:induction false} FreshInOpen(cs: seq<Chunk>, b: nat, i: nat)
    requires i < |cs| && AllNamesDiffer(Buckets(cs, b))
    requires Used(Pack(cs[..i], b).open) + cs[i].meta.chunkSize <= b
    ensures forall k | 0 <= k < |Pack(cs[..i], b).open| :: Pack(cs[..i], b).open[k].meta.name != cs[i].meta.name
  {
    hide Pack, Used;
    PackNext(cs, i, b);
    OpenStays(cs, b, i + 1, |cs|);
    assert cs[..|cs|] == cs;
    var open, open' := Pack(cs[..i], b).open, Pack(cs[..i + 1], b).open;
    var bucket := Buckets(cs, b)[|Pack(cs[..i + 1], b).closed|];
    assert NamesDiffer(bucket);
    forall k | 0 <= k < |open| ensures open[k].meta.name != cs[i].meta.name {
      assert bucket[k] == open'[k] == open[k] && bucket[|open|] == open'[|open|];
    }
  }

  /** Where the names within each bucket differ, a chunk that fits finds no chunk of its name. */
  lemma {:induction false} FreshInMemory(p: Packer, cs: seq<Chunk>, b: nat)
    requires SendInv(p, cs, b) && CanFill(p, cs, b) && AllNamesDiffer(Buckets(cs, b))
    ensures Fresh(p, cs)
  {
    hide Pack, AllNamesDiffer, Holds, LaidOut, LogTracks;
    var packed := Pack(cs[..p.next], b);
    if Tracks(p, packed, b) {
      FreshInOpen(cs, b, p.next);
    }
  }

  // ------------------------------------------------------- and only they do

  /** No bucket lists a name twice. */
  ghost predicate NamesKept(p: Packer) {
    && DistinctKeys(MetaName, p.entries)
    && forall k | 0 <= k < |p.log| :: DistinctKeys(MetaName, p.log[k].entries)
  }

  lemma {:induction false} StartNames(p: Packer)
    requires Started(p)
    ensures NamesKept(p)
  {
  }

  lemma {:induction false} FillNames(p: Packer, cs: seq<Chunk>, b: nat)
    requires |p.bufs| == 2 && p.send < 2 && p.next < |cs| && p.offset + |cs[p.next].bytes| <= |p.bufs[p.send]|
    requires NamesKept(p) && Fresh(p, cs)
    ensures NamesKept(Fill(p, cs[p.next], b))
  {
    DistinctSnoc(MetaName, p.entries, Place(cs[p.next], p.offset).meta);
  }

  lemma {:induction false} HandOutNames(p: Packer)
    requires |p.bufs| == 2 && p.send < 2 && NamesKept(p)
    ensures NamesKept(Flush(p)) && NamesKept(Finish(p))
  {
  }

  lemma {:induction false} NamesOfBucket(bucket: Bucket)
    ensures DistinctKeys(MetaName, Metas(bucket)) <==> NamesDiffer(bucket)
  {
    var metas := Metas(bucket);
    assert forall k | 0 <= k < |bucket| :: MetaName(metas[k]) == bucket[k].meta.name;
  }

  /** So when the last bucket is out, the names within each bucket differ. */
  lemma {:induction false} KeptMeansDiffer(p: Packer, cs: seq<Chunk>, b: nat)
    requires SendInv(p, cs, b) && LastSent(p) && NamesKept(p)
    ensures AllNamesDiffer(Buckets(cs, b))
  {
    hide SendInv, Pack, Holds;
    var buckets := Buckets(cs, b);
    LogPrefix(p, cs, b);
    forall k | 0 <= k < |buckets| ensures NamesDiffer(buckets[k]) {
      assert Matches(p.log[k], buckets[..|p.log|][k], b);
      NamesOfBucket(buckets[k]);
    }
  }

  // ------------------------------------------------------- two weights of one name

  lemma {:induction false} TwoChunks(ws: seq<Weight>, b: nat)
    requires b >= 1 && |ws| == 2 && |ws[0].data| == |ws[1].data| == 1
    ensures Split(ws, b) == [ChunkAt(ws[0], b, 0), ChunkAt(ws[1], b, 0)]
  {
    OneChunk(ws[0], b);
    OneChunk(ws[1], b);
    hide ChunksFrom, ChunkAt;
    assert ws[0..] == ws && ws[2..] == [];
    SplitSnoc(ws, 0, b);
    SplitSnoc(ws, 1, b);
    assert Split([], b) == [];
  }

  lemma {:induction false} TwoPacked(x: Chunk, y: Chunk, b: nat)
    requires x.meta.chunkSize + y.meta.chunkSize <= b
    ensures Buckets([x, y], b) == [[Place(x, 0), Place(y, x.meta.chunkSize)]]
  {
    hide Pack, Used;
    var cs := [x, y];
    assert cs[..0] == [] && cs[..1] == [x] && cs[..2] == cs;
    PackNext(cs, 0, b);
    PackNext(cs, 1, b);
    NothingPacked(b);
    UsedSnoc([], Place(x, 0));
    assert [] + [Place(x, 0)] == [Place(x, 0)];
    assert Pack(cs[..1], b) == Packed([], [Place(x, 0)]);
    var bucket := [Place(x, 0)] + [Place(y, x.meta.chunkSize)];
    assert Pack(cs, b) == Packed([], bucket);
    assert bucket == [Place(x, 0), Place(y, x.meta.chunkSize)] && [] + [bucket] == [bucket];
  }

  lemma {:induction false} NothingPacked(b: nat)
    ensures Pack([], b) == Packed([], []) && Used([]) == 0
  {
  }

  /** Two weights of a byte each under one name share a bucket of any size from two on. */
  lemma {:induction false} NamesakesShare(ws: seq<Weight>, b: nat)
    requires b >= 2 && |ws| == 2 && ws[0].name == ws[1].name && |ws[0].data| == |ws[1].data| == 1
    ensures !AllNamesDiffer(Buckets(Split(ws, b), b))
  {
    hide Split, Buckets;
    var x, y := ChunkAt(ws[0], b, 0), ChunkAt(ws[1], b, 0);
    TwoChunks(ws, b);
    OneChunk(ws[0], b);
    OneChunk(ws[1], b);
    TwoPacked(x, y, b);
    var bucket := Buckets(Split(ws, b), b)[0];
    assert bucket[0].meta.name == bucket[1].meta.name;
    assert !NamesDiffer(bucket);
  }

  lemma {:induction false} OneChunk(w: Weight, b: nat)
    requires b >= 1 && |w.data| == 1
    ensures ChunksFrom(w, b, 0) == [ChunkAt(w, b, 0)] && ChunkAt(w, b, 0).meta.chunkSize == 1
    ensures ChunkAt(w, b, 0).meta.name == w.name
  {
    assert ChunksFrom(w, b, 1) == [];
  }
}
