/** The loops of `send_weights` in the NCCL, NIXL and HCCL engines on buffers in memory, run
    without a transport: what they hand out, bucket by bucket. */
module SendLoops {
  import opened Options
  import opened Weights
  import opened Packing
  import opened PackingLaws
  import opened Sending
  import opened SendNames
  import opened Dictionaries

  /** The packer after the flush that a round may begin with. */
  function MakeRoom(p: Packer, cs: seq<Chunk>, b: nat): Packer
    requires |p.bufs| == 2 && p.send < 2
  {
    if AtFlush(p, cs, b) then Flush(p) else p
  }

  /** Between two rounds. */
  ghost predicate Ready(p: Packer, cs: seq<Chunk>, b: nat) {
    Shaped(p, b) && SendInv(p, cs, b) && !LastSent(p)
  }

  /** A round finds room, whatever came before. */
  lemma {:induction false} RoundInv(p: Packer, cs: seq<Chunk>, b: nat)
    requires Ready(p, cs, b) && AllBounded(cs, b) && p.next < |cs|
    ensures var q := MakeRoom(p, cs, b);
            && |q.bufs| == 2 && q.send < 2 && |q.bufs[q.send]| == b && |cs[p.next].bytes| == cs[p.next].meta.chunkSize
            && CanFill(q, cs, b) && q.next == p.next && SendInv(q, cs, b)
            && Ready(Fill(q, cs[p.next], b), cs, b)
  {
    hide SendInv;
    assert Bounded(cs[p.next], b);
    if AtFlush(p, cs, b) {
      FlushInv(p, cs, b);
    }
    FillInv(MakeRoom(p, cs, b), cs, b);
  }

  lemma {:induction false} RoundNames(p: Packer, cs: seq<Chunk>, b: nat)
    requires Ready(p, cs, b) && AllBounded(cs, b) && p.next < |cs| && NamesKept(p)
    ensures var q := MakeRoom(p, cs, b);
            && |q.bufs| == 2 && q.send < 2 && |q.bufs[q.send]| == b && |cs[p.next].bytes| == cs[p.next].meta.chunkSize
            && q.offset + |cs[p.next].bytes| <= b && q.next == p.next
            && (Fresh(q, cs) ==> NamesKept(Fill(q, cs[p.next], b)))
            && (!Fresh(q, cs) ==> !AllNamesDiffer(Buckets(cs, b)))
  {
    hide SendInv, NamesKept, AllNamesDiffer;
    RoundInv(p, cs, b);
    HandOutNames(p);
    var q := MakeRoom(p, cs, b);
    if Fresh(q, cs) {
      FillNames(q, cs, b);
    } else if AllNamesDiffer(Buckets(cs, b)) {
      FreshInMemory(q, cs, b);
    }
  }

  lemma {:induction false} EndInv(p: Packer, cs: seq<Chunk>, b: nat)
    requires Ready(p, cs, b) && p.next == |cs|
    ensures AllMatch(Finish(p).log, Buckets(cs, b), b)
    ensures forall k | 0 <= k < |Finish(p).log| :: Finish(p).log[k].isLast <==> k == |Finish(p).log| - 1
  {
    var q := Finish(p);
    FinishInv(p, cs, b);
    LogPrefix(q, cs, b);
    assert Buckets(cs, b)[..|q.log|] == Buckets(cs, b);
    forall k | 0 <= k < |q.log| ensures q.log[k].isLast <==> k == |q.log| - 1 {
      OnlyLastIsLast(q, cs, b, k);
    }
  }

  /** One round of the loop over chunks; it fails on a name that is in the bucket. */
  method SendRound(frame: SendFrame, c: Chunk, ghost cs: seq<Chunk>) returns (ok: bool)
    requires frame.Valid() && Ready(frame.State(), cs, frame.first.Length)
    requires AllBounded(cs, frame.first.Length)
    requires frame.next < |cs| && c == cs[frame.next] && NamesKept(frame.State())
    modifies frame, frame.first, frame.second
    ensures ok ==>
              && frame.Valid() && Ready(frame.State(), cs, frame.first.Length) && frame.next == old(frame.next) + 1
              && NamesKept(frame.State())
    ensures !ok ==> !AllNamesDiffer(Buckets(cs, frame.first.Length))
  {
    hide Ready, SendInv, NamesKept;
    RoundInv(frame.State(), cs, frame.first.Length);
    RoundNames(frame.State(), cs, frame.first.Length);
    if frame.offset + c.meta.chunkSize > frame.first.Length {
      frame.HandOut(false);
    }
    if exists k :: 0 <= k < |frame.bucketMeta| && frame.bucketMeta[k].name == c.meta.name {
      return false;
    }
    frame.PlaceChunk(c);
    ok := true;
  }

  /** The loop over chunks. The assertion on the size always holds, and the one on the name holds
      throughout exactly when the names within each bucket differ. */
  method SendChunks(cs: seq<Chunk>, b: nat) returns (ok: bool, frame: SendFrame)
    requires AllBounded(cs, b)
    ensures ok <==> AllNamesDiffer(Buckets(cs, b))
    ensures ok ==> AllMatch(frame.log, Buckets(cs, b), b)
    ensures ok ==> forall k | 0 <= k < |frame.log| :: frame.log[k].isLast <==> k == |frame.log| - 1
  {
    hide SendInv, NamesKept, AllNamesDiffer;
    frame := new SendFrame(b);
    StartInv(frame.State(), cs, b);
    StartNames(frame.State());
    for i := 0 to |cs|
      invariant fresh(frame) && fresh(frame.first) && fresh(frame.second)
      invariant frame.Valid() && frame.first.Length == b && frame.next == i && Ready(frame.State(), cs, b)
      invariant NamesKept(frame.State())
    {
      ok := SendRound(frame, cs[i], cs);
      if !ok {
        return;
      }
    }
    EndInv(frame.State(), cs, b);
    EndNames(frame.State(), cs, b);
    frame.HandOut(true);
    ok := true;
  }

  lemma {:induction false} EndNames(p: Packer, cs: seq<Chunk>, b: nat)
    requires Ready(p, cs, b) && p.next == |cs| && NamesKept(p)
    ensures AllNamesDiffer(Buckets(cs, b))
  {
    hide SendInv, NamesKept, AllNamesDiffer;
    FinishInv(p, cs, b);
    HandOutNames(p);
    KeptMeansDiffer(Finish(p), cs, b);
  }

  // ------------------------------------------------------- HCCL: no chunks

  function Whole(w: Weight): Chunk {
    Chunk(TensorMeta(w.name, w.shape, w.dtype, 0, |w.data|, None), w.data)
  }

  function Wholes(ws: seq<Weight>): (r: seq<Chunk>)
    ensures |r| == |ws|
  {
    seq(|ws|, i requires 0 <= i < |ws| => Whole(ws[i]))
  }

  predicate AllSmall(ws: seq<Weight>, b: nat) {
    forall i | 0 <= i < |ws| :: |ws[i].data| <= b
  }

  /** Splitting leaves weights alone that fit a bucket and are not empty. */
  lemma {:induction false} SmallSplit(ws: seq<Weight>, b: nat)
    requires b >= 1 && AllSmall(ws, b) && forall i | 0 <= i < |ws| :: ws[i].data != []
    ensures Split(ws, b) == Wholes(ws)
  {
    if ws != [] {
      var w := ws[0];
      assert w.data[0..|w.data|] == w.data;
      assert ChunkAt(w, b, 0) == Whole(w);
      assert ChunksFrom(w, b, |w.data|) == [];
      assert ChunksFrom(w, b, 0) == [Whole(w)];
      SmallSplit(ws[1..], b);
      assert Wholes(ws) == [Whole(w)] + Wholes(ws[1..]);
    }
  }

  /** Where every weight fits a bucket, the engines that split weights fill the same buckets as HCCL, which
      does not, exactly when no weight is empty. */
  lemma {:induction false} SameBuckets(ws: seq<Weight>, b: nat)
    requires b >= 1 && AllSmall(ws, b)
    ensures Buckets(Split(ws, b), b) == Buckets(Wholes(ws), b) <==> forall i | 0 <= i < |ws| :: ws[i].data != []
  {
    if forall i | 0 <= i < |ws| :: ws[i].data != [] {
      SmallSplit(ws, b);
    }
    if Buckets(Split(ws, b), b) == Buckets(Wholes(ws), b) {
      SplitUnplaced(ws, b);
      PackKeepsAll(Split(ws, b), b);
      PackKeepsAll(Wholes(ws), b);
      SplitFits(ws, b);
      forall i | 0 <= i < |ws| ensures ws[i].data != [] {
        assert Fitting(Split(ws, b)[i], b) && Wholes(ws)[i] == Whole(ws[i]);
      }
    }
  }

  /** What is sent when the metadata of a bucket goes into a dictionary by name. */
  function ListedLog(log: seq<Parcel>): (r: seq<Parcel>)
    ensures |r| == |log|
  {
    seq(|log|, k requires 0 <= k < |log| => log[k].(entries := AsDict(MetaName, log[k].entries)))
  }

  function Listed(p: Packer): Packer {
    p.(entries := AsDict(MetaName, p.entries), log := ListedLog(p.log))
  }

  lemma {:induction false} ListedFill(p: Packer, c: Chunk, b: nat)
    requires |p.bufs| == 2 && p.send < 2 && p.offset + |c.bytes| <= |p.bufs[p.send]|
    ensures Listed(Fill(p, c, b)) == FillDict(Listed(p), c, b)
  {
    DictNext(MetaName, p.entries, Place(c, p.offset).meta);
  }

  lemma {:induction false} ListedHandOut(p: Packer)
    requires |p.bufs| == 2 && p.send < 2
    ensures Listed(Flush(p)) == Flush(Listed(p)) && Listed(Finish(p)) == Finish(Listed(p))
  {
  }

  lemma {:induction false} ListedStart(p: Packer)
    requires Started(p)
    ensures Listed(p) == p
  {
  }

  /** Each parcel holds its bucket, and lists of each name the last chunk. */
  ghost predicate AllListed(log: seq<Parcel>, buckets: seq<Bucket>, b: nat) {
    && |log| == |buckets|
    && forall k | 0 <= k < |log| ::
         && |log[k].buf| == b && Holds(log[k].buf, buckets[k])
         && log[k].entries == AsDict(MetaName, Metas(buckets[k]))
  }

  lemma {:induction false} MatchIsListed(log: seq<Parcel>, buckets: seq<Bucket>, b: nat)
    requires AllMatch(log, buckets, b)
    ensures AllListed(ListedLog(log), buckets, b)
  {
    hide AsDict, Holds;
    forall k | 0 <= k < |log| ensures Matches(log[k], buckets[k], b) {
    }
  }

  /** `send_weights` of HCCL: each weight goes into a bucket as it is, an empty one too; one that is
      larger than a bucket fails the assertion. The metadata goes into a dictionary, without another
      assertion. */
  method HcclSend(ws: seq<Weight>, b: nat) returns (ok: bool, frame: SendFrame)
    ensures ok <==> AllSmall(ws, b)
    ensures ok ==> AllListed(frame.log, Buckets(Wholes(ws), b), b)
  {
    hide SendInv, Listed;
    frame := new SendFrame(b);
    ghost var p := frame.State();
    StartInv(p, [], b);
    ListedStart(p);
    for i := 0 to |ws|
      invariant fresh(frame) && fresh(frame.first) && fresh(frame.second)
      invariant frame.Valid() && frame.first.Length == b && frame.State() == Listed(p) && p.next == i
      invariant AllSmall(ws[..i], b) && Ready(p, Wholes(ws[..i]), b)
    {
      if |ws[i].data| > b {
        // Not even the empty bucket after a flush can take the weight.
        if frame.offset + |ws[i].data| > b {
          frame.HandOut(false);
        }
        ok := false;
        return;
      }
      WholesGrow(ws, i, b, p);
      p := HcclRound(frame, Whole(ws[i]), Wholes(ws[..i + 1]), p);
    }
    assert ws[..|ws|] == ws;
    EndInv(p, Wholes(ws), b);
    ListedHandOut(p);
    MatchIsListed(Finish(p).log, Buckets(Wholes(ws), b), b);
    ListedMeans(Finish(p));
    frame.HandOut(true);
    ok := true;
  }

  lemma {:induction false} ListedMeans(p: Packer)
    ensures Listed(p).log == ListedLog(p.log) && Listed(p).next == p.next && Listed(p).offset == p.offset
    ensures Listed(p).bufs == p.bufs && Listed(p).send == p.send
  {
  }

  /** One round; `p` is what the packer would be if all metadata were kept. */
  method HcclRound(frame: SendFrame, c: Chunk, ghost cs: seq<Chunk>, ghost p: Packer) returns (ghost p': Packer)
    requires frame.Valid() && frame.State() == Listed(p) && Ready(p, cs, frame.first.Length)
    requires AllBounded(cs, frame.first.Length) && p.next < |cs| && c == cs[p.next]
    modifies frame, frame.first, frame.second
    ensures frame.Valid() && frame.State() == Listed(p') && Ready(p', cs, frame.first.Length)
    ensures p'.next == p.next + 1
  {
    hide SendInv, Listed;
    p' := MakeRoom(p, cs, frame.first.Length);
    RoundInv(p, cs, frame.first.Length);
    ListedMeans(p);
    ListedMeans(p');
    ListedHandOut(p);
    if frame.offset + c.meta.chunkSize > frame.first.Length {
      frame.HandOut(false);
    }
    ListedFill(p', c, frame.first.Length);
    p' := Fill(p', c, frame.first.Length);
    frame.Store(c);
  }

  lemma {:induction false} WholesGrow(ws: seq<Weight>, i: nat, b: nat, p: Packer)
    requires i < |ws| && AllSmall(ws[..i], b) && |ws[i].data| <= b
    requires Ready(p, Wholes(ws[..i]), b) && p.next == i
    ensures var cs := Wholes(ws[..i + 1]);
            && AllBounded(cs, b) && Ready(p, cs, b)
            && cs[i] == Whole(ws[i]) && AllSmall(ws[..i + 1], b)
  {
    hide SendInv;
    var cs := Wholes(ws[..i + 1]);
    forall k | 0 <= k <= i ensures Bounded(cs[k], b) {
      assert k < i ==> ws[..i][k] == ws[k];
    }
    assert forall k | 0 <= k <= i :: k < i ==> ws[..i + 1][k] == ws[..i][k];
    assert Wholes(ws[..i]) == cs[..i];
    SendInvGrows(p, cs, b);
  }

  /** Chunks to come do not matter. */
  lemma {:induction false} SendInvGrows(p: Packer, cs: seq<Chunk>, b: nat)
    requires cs != [] && p.next == |cs| - 1 && SendInv(p, cs[..|cs| - 1], b) && !LastSent(p)
    ensures SendInv(p, cs, b)
  {
    hide Tracks, Pack;
    assert cs[..|cs| - 1][..p.next] == cs[..p.next];
  }

  /** What `receive_weights` of HCCL makes of an entry: the slice whose size is recomputed from
      shape and element type, seen as a tensor. */
  function HcclView(m: TensorMeta, buf: seq<Byte>): Weight {
    Weight(m.name, m.shape, m.dtype, View(m.(chunkSize := ByteSize(m.shape, m.dtype)), buf).bytes)
  }

  function HcclYields(log: seq<Parcel>, n: nat): seq<Weight>
    requires n <= |log|
  {
    if n == 0 then [] else
    HcclYields(log, n - 1) +
    seq(|log[n - 1].entries|,
        i requires 0 <= i < |log[n - 1].entries| => HcclView(log[n - 1].entries[i], log[n - 1].buf))
  }

  function AsWeights(cs: seq<Chunk>): (r: seq<Weight>)
    ensures |r| == |cs|
  {
    seq(|cs|, i requires 0 <= i < |cs| => Weight(cs[i].meta.name, cs[i].meta.shape, cs[i].meta.dtype, cs[i].bytes))
  }

  predicate WholeChunk(c: Chunk) {
    c.meta.chunkSize == ByteSize(c.meta.shape, c.meta.dtype)
  }

  lemma {:induction false} YieldsAreBuckets(log: seq<Parcel>, buckets: seq<Bucket>, n: nat, b: nat)
    requires AllMatch(log, buckets, b) && n <= |log|
    requires forall k, i | 0 <= k < |buckets| && 0 <= i < |buckets[k]| :: WholeChunk(buckets[k][i])
    ensures HcclYields(log, n) == AsWeights(Flatten(buckets[..n]))
  {
    if n > 0 {
      var parcel, bucket := log[n - 1], buckets[n - 1];
      YieldsAreBuckets(log, buckets, n - 1, b);
      assert buckets[..n] == buckets[..n - 1] + [bucket];
      FlattenSnoc(buckets[..n - 1], bucket);
      assert Matches(parcel, bucket, b);
      ParcelIsBucket(parcel, bucket, b);
      hide Flatten;
      assert AsWeights(Flatten(buckets[..n - 1]) + bucket) == AsWeights(Flatten(buckets[..n - 1])) + AsWeights(bucket);
    }
  }

  lemma {:induction false} ParcelIsBucket(parcel: Parcel, bucket: Bucket, b: nat)
    requires Matches(parcel, bucket, b) && forall i | 0 <= i < |bucket| :: WholeChunk(bucket[i])
    ensures seq(|parcel.entries|,
                i requires 0 <= i < |parcel.entries| => HcclView(parcel.entries[i], parcel.buf)) == AsWeights(bucket)
  {
    UnpackHeld(parcel.buf, bucket);
    forall i | 0 <= i < |bucket|
      ensures HcclView(parcel.entries[i], parcel.buf) == AsWeights(bucket)[i]
    {
      assert WholeChunk(bucket[i]);
      assert Unpack(Metas(bucket), parcel.buf)[i] == bucket[i];
    }
  }

  lemma {:induction false} FlattenMember(buckets: seq<Bucket>, k: nat, i: nat)
    requires k < |buckets| && i < |buckets[k]|
    ensures buckets[k][i] in Flatten(buckets)
    decreases |buckets|
  {
    if k < |buckets| - 1 {
      FlattenMember(buckets[..|buckets| - 1], k, i);
    }
  }

  /** What is yielded is fewer weights than were put in, unless the names within each bucket differ. */
  lemma {:induction false} YieldsFewer(log: seq<Parcel>, buckets: seq<Bucket>, n: nat, b: nat)
    requires AllListed(log, buckets, b) && n <= |log|
    ensures |HcclYields(log, n)| <= |Flatten(buckets[..n])|
    ensures |HcclYields(log, n)| == |Flatten(buckets[..n])| <==> AllNamesDiffer(buckets[..n])
  {
    hide NamesDiffer, AsDict;
    if n > 0 {
      var before, bucket := buckets[..n - 1], buckets[n - 1];
      YieldsFewer(log, buckets, n - 1, b);
      assert buckets[..n] == before + [bucket];
      FlattenSnoc(before, bucket);
      AsDictKeeps(MetaName, Metas(bucket));
      NamesOfBucket(bucket);
      assert log[n - 1].entries == AsDict(MetaName, Metas(bucket));
      AllSnoc(before, bucket);
    }
  }

  lemma {:induction false} AllSnoc(buckets: seq<Bucket>, bucket: Bucket)
    ensures AllNamesDiffer(buckets + [bucket]) <==> AllNamesDiffer(buckets) && NamesDiffer(bucket)
  {
    hide NamesDiffer;
    var all := buckets + [bucket];
    assert all[|buckets|] == bucket && forall k | 0 <= k < |buckets| :: all[k] == buckets[k];
  }

  lemma {:induction false} DistinctMatch(log: seq<Parcel>, buckets: seq<Bucket>, b: nat)
    requires AllListed(log, buckets, b) && AllNamesDiffer(buckets)
    ensures AllMatch(log, buckets, b)
  {
    hide NamesDiffer, AsDict, Holds;
    forall k | 0 <= k < |log| ensures Matches(log[k], buckets[k], b) {
      NamesOfBucket(buckets[k]);
      AsDictKeeps(MetaName, Metas(buckets[k]));
    }
  }

  lemma {:induction false} AllYielded(ws: seq<Weight>, b: nat, log: seq<Parcel>)
    requires forall i | 0 <= i < |ws| :: ws[i].Valid()
    requires AllMatch(log, Buckets(Wholes(ws), b), b)
    ensures HcclYields(log, |log|) == ws
  {
    var cs := Wholes(ws);
    var buckets := Buckets(cs, b);
    PackKeepsAll(cs, b);
    forall k, i | 0 <= k < |buckets| && 0 <= i < |buckets[k]| ensures WholeChunk(buckets[k][i]) {
      FlattenMember(buckets, k, i);
      var j :| 0 <= j < |Flatten(buckets)| && Flatten(buckets)[j] == buckets[k][i];
      assert UnplacedAll(Flatten(buckets))[j] == Whole(ws[j]);
    }
    YieldsAreBuckets(log, buckets, |log|, b);
    assert buckets[..|log|] == buckets;
    forall j | 0 <= j < |ws| ensures AsWeights(Flatten(buckets))[j] == ws[j] {
      assert UnplacedAll(Flatten(buckets))[j] == Whole(ws[j]);
    }
  }

  /** HCCL end to end: unpacking what was packed yields the weights, in order, exactly when no two weights
      of one name are put into one bucket. */
  lemma {:induction false} HcclRoundTrip(ws: seq<Weight>, b: nat, log: seq<Parcel>)
    requires forall i | 0 <= i < |ws| :: ws[i].Valid()
    requires AllListed(log, Buckets(Wholes(ws), b), b)
    ensures HcclYields(log, |log|) == ws <==> AllNamesDiffer(Buckets(Wholes(ws), b))
  {
    hide AllNamesDiffer, HcclYields, AllListed, Flatten;
    var buckets := Buckets(Wholes(ws), b);
    ListedLength(log, buckets, b);
    YieldsFewer(log, buckets, |log|, b);
    assert buckets[..|log|] == buckets;
    PackKeepsAll(Wholes(ws), b);
    assert |Flatten(buckets)| == |ws|;
    if AllNamesDiffer(buckets) {
      DistinctMatch(log, buckets, b);
      AllYielded(ws, b, log);
    }
  }

  lemma {:induction false} ListedLength(log: seq<Parcel>, buckets: seq<Bucket>, b: nat)
    requires AllListed(log, buckets, b)
    ensures |log| == |buckets|
  {
  }
}
