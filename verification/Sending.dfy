/** The sending side of the bucket protocols, without the transport: the loop of `send_weights`
    that fills one of two buffers and hands full ones out. The transports (NCCL broadcast, NIXL
    chain) drive it step by step. */
module Sending {
  import opened Options
  import opened Weights
  import opened Packing
  import opened Counting
  import opened Dictionaries

  /** What goes over the transport: the whole buffer as it was when it was handed out, and the
      metadata message that goes with it. */
  datatype Parcel = Parcel(buf: seq<Byte>, entries: seq<TensorMeta>, isLast: bool)

  /** The local variables of `send_weights`. `bufs` are the two buffers, `send` says which one is
      called `send_buf` at the moment. `log` records the parcels handed out so far. */
  datatype Packer = Packer(
    next: nat, entries: seq<TensorMeta>, offset: nat, bufs: seq<seq<Byte>>, send: nat, log: seq<Parcel>)

  ghost predicate Shaped(p: Packer, b: nat) {
    |p.bufs| == 2 && |p.bufs[0]| == b && |p.bufs[1]| == b && p.send < 2
  }

  predicate LastSent(p: Packer) {
    p.log != [] && p.log[|p.log| - 1].isLast
  }

  /** The next chunk does not fit, so the bucket has to go first. */
  predicate AtFlush(p: Packer, cs: seq<Chunk>, b: nat) {
    p.next < |cs| && p.offset + cs[p.next].meta.chunkSize > b
  }

  predicate AtEnd(p: Packer, cs: seq<Chunk>) {
    p.next == |cs| && !LastSent(p)
  }

  /** The next chunk fits. */
  predicate CanFill(p: Packer, cs: seq<Chunk>, b: nat) {
    p.next < |cs| && p.offset + cs[p.next].meta.chunkSize <= b
  }

  /** The assertion of `send_weights`: the name of the next chunk is not in the bucket. */
  predicate Fresh(p: Packer, cs: seq<Chunk>)
    requires p.next < |cs|
  {
    forall k | 0 <= k < |p.entries| :: p.entries[k].name != cs[p.next].meta.name
  }

  function Fill(p: Packer, c: Chunk, b: nat): Packer
    requires |p.bufs| == 2 && p.send < 2 && p.offset + |c.bytes| <= |p.bufs[p.send]|
  {
    p.(next := p.next + 1,
       entries := p.entries + [Place(c, p.offset).meta],
       offset := p.offset + c.meta.chunkSize,
       bufs := p.bufs[p.send := Written(p.bufs[p.send], p.offset, c.bytes)])
  }

  function MetaName(m: TensorMeta): string {
    m.name
  }

  /** Placing a chunk without the assertion: the metadata under its name is replaced. */
  function FillDict(p: Packer, c: Chunk, b: nat): Packer
    requires |p.bufs| == 2 && p.send < 2 && p.offset + |c.bytes| <= |p.bufs[p.send]|
  {
    Fill(p, c, b).(entries := Put(MetaName, p.entries, Place(c, p.offset).meta))
  }

  lemma {:induction false} FreshIsAppended(p: Packer, c: Chunk, b: nat)
    requires |p.bufs| == 2 && p.send < 2 && p.offset + |c.bytes| <= |p.bufs[p.send]|
    requires forall k | 0 <= k < |p.entries| :: p.entries[k].name != c.meta.name
    ensures FillDict(p, c, b) == Fill(p, c, b)
  {
    PutLength(MetaName, p.entries, Place(c, p.offset).meta);
    hide Put;
  }

  /** Hand the bucket out and go on with the other buffer. */
  function Flush(p: Packer): Packer
    requires |p.bufs| == 2 && p.send < 2
  {
    p.(entries := [], offset := 0, send := 1 - p.send,
       log := p.log + [Parcel(p.bufs[p.send], p.entries, false)])
  }

  /** Hand the last bucket out. */
  function Finish(p: Packer): Packer
    requires |p.bufs| == 2 && p.send < 2
  {
    p.(log := p.log + [Parcel(p.bufs[p.send], p.entries, true)])
  }

  /** The buffer of the parcel handed out last. */
  function Outstanding(p: Packer): nat {
    if LastSent(p) then p.send else if p.send <= 1 then 1 - p.send else 0
  }

  predicate Matches(parcel: Parcel, bucket: Bucket, b: nat) {
    |parcel.buf| == b && parcel.entries == Metas(bucket) && Holds(parcel.buf, bucket)
  }

  predicate AllMatch(log: seq<Parcel>, buckets: seq<Bucket>, b: nat) {
    |log| == |buckets| && forall k | 0 <= k < |log| :: Matches(log[k], buckets[k], b)
  }

  /** The buffer being filled against the open bucket. */
  ghost predicate BufferTracks(p: Packer, open: Bucket, b: nat) {
    && Shaped(p, b)
    && p.entries == Metas(open) && p.offset == Used(open)
    && LaidOut(open, b) && Holds(p.bufs[p.send], open)
  }

  /** The parcels handed out against the buckets closed. */
  ghost predicate LogTracks(log: seq<Parcel>, packed: Packed, isLast: bool, b: nat) {
    && AllMatch(log, if isLast then Sent(packed) else packed.closed, b)
    && forall k | 0 <= k < |packed.closed| :: !log[k].isLast
  }

  ghost predicate Tracks(p: Packer, packed: Packed, b: nat) {
    BufferTracks(p, packed.open, b) && LogTracks(p.log, packed, LastSent(p), b)
  }

  function Flushed(packed: Packed): Packed {
    Packed(Sent(packed), [])
  }

  /** Between rounds the memory tracks the chunks consumed; after a flush, in the middle of a
      round, the next chunk is still to be placed in the other buffer. */
  ghost predicate SendInv(p: Packer, cs: seq<Chunk>, b: nat) {
    && p.next <= |cs|
    && var packed := Pack(cs[..p.next], b);
    || (Tracks(p, packed, b) && (LastSent(p) ==> p.next == |cs|))
    || (p.next < |cs| && Used(packed.open) + cs[p.next].meta.chunkSize > b
        && Tracks(p, Flushed(packed), b) && !LastSent(p))
  }

  predicate Started(p: Packer) {
    p.next == 0 && p.entries == [] && p.offset == 0 && p.log == []
  }

  lemma {:induction false} StartInv(p: Packer, cs: seq<Chunk>, b: nat)
    requires Started(p) && Shaped(p, b)
    ensures SendInv(p, cs, b)
  {
    assert cs[..0] == [];
  }

  lemma {:induction false} FillBuffer(p: Packer, open: Bucket, c: Chunk, b: nat)
    requires BufferTracks(p, open, b) && Bounded(c, b) && p.offset + c.meta.chunkSize <= b
    ensures BufferTracks(Fill(p, c, b), open + [Place(c, Used(open))], b)
  {
    var open' := open + [Place(c, Used(open))];
    var p' := Fill(p, c, b);
    assert LaidOut(open', b) by { LaidOutSnoc(open, c, b); }
    assert Holds(p'.bufs[p'.send], open') by { HoldsSnoc(p.bufs[p.send], open, c, b); }
    assert p'.offset == Used(open') by { UsedSnoc(open, Place(c, Used(open))); }
    assert p'.entries == Metas(open') by { MetasSnoc(open, Place(c, Used(open))); }
  }

  lemma {:induction false} MetasSnoc(bucket: Bucket, c: Chunk)
    ensures Metas(bucket + [c]) == Metas(bucket) + [c.meta]
  {
  }

  lemma {:induction false} FillTracks(p: Packer, packed: Packed, c: Chunk, b: nat)
    requires Tracks(p, packed, b) && Bounded(c, b) && p.offset + c.meta.chunkSize <= b && !LastSent(p)
    ensures Tracks(Fill(p, c, b), PackStep(packed, c, b), b)
  {
    FillBuffer(p, packed.open, c, b);
  }

  lemma {:induction false} FillInv(p: Packer, cs: seq<Chunk>, b: nat)
    requires SendInv(p, cs, b) && AllBounded(cs, b) && CanFill(p, cs, b)
    ensures SendInv(Fill(p, cs[p.next], b), cs, b)
  {
    hide Tracks, Pack;
    var c := cs[p.next];
    var packed := Pack(cs[..p.next], b);
    assert Bounded(c, b);
    PackNext(cs, p.next, b);
    if Tracks(p, packed, b) {
      FillTracks(p, packed, c, b);
    } else {
      FillTracks(p, Flushed(packed), c, b);
      assert [] + [Place(c, 0)] == [Place(c, 0)];
      assert PackStep(Flushed(packed), c, b) == PackStep(packed, c, b);
    }
  }

  lemma {:induction false} FlushTracks(p: Packer, packed: Packed, b: nat)
    requires Tracks(p, packed, b) && !LastSent(p)
    ensures Tracks(Flush(p), Flushed(packed), b) && !LastSent(Flush(p))
  {
  }

  lemma {:induction false} FlushInv(p: Packer, cs: seq<Chunk>, b: nat)
    requires SendInv(p, cs, b) && AllBounded(cs, b) && AtFlush(p, cs, b)
    ensures SendInv(Flush(p), cs, b)
  {
    assert Bounded(cs[p.next], b);
    FlushTracks(p, Pack(cs[..p.next], b), b);
  }

  lemma {:induction false} FinishTracks(p: Packer, packed: Packed, b: nat)
    requires Tracks(p, packed, b) && !LastSent(p)
    ensures Tracks(Finish(p), packed, b) && LastSent(Finish(p))
  {
  }

  lemma {:induction false} FinishInv(p: Packer, cs: seq<Chunk>, b: nat)
    requires SendInv(p, cs, b) && AtEnd(p, cs)
    ensures SendInv(Finish(p), cs, b) && LastSent(Finish(p))
  {
    FinishTracks(p, Pack(cs[..p.next], b), b);
  }

  // ------------------------------------------------------- what the log says

  /** The chunks a receiver unpacks from the first `n` parcels. */
  function Unpacked(log: seq<Parcel>, n: nat): seq<Chunk>
    requires n <= |log|
  {
    if n == 0 then [] else Unpacked(log, n - 1) + Unpack(log[n - 1].entries, log[n - 1].buf)
  }

  lemma {:induction false} UnpackedFrame(log: seq<Parcel>, log': seq<Parcel>, n: nat)
    requires n <= |log| <= |log'| && log'[..|log|] == log
    ensures Unpacked(log', n) == Unpacked(log, n)
    decreases n
  {
    if n > 0 {
      UnpackedFrame(log, log', n - 1);
      assert log'[n - 1] == log'[..|log|][n - 1];
    }
  }

  lemma {:induction false} UnpackedBuckets(log: seq<Parcel>, buckets: seq<Bucket>, n: nat, b: nat)
    requires AllMatch(log, buckets, b) && n <= |log|
    ensures Unpacked(log, n) == Flatten(buckets[..n])
  {
    if n > 0 {
      UnpackedBuckets(log, buckets, n - 1, b);
      assert buckets[..n] == buckets[..n - 1] + [buckets[n - 1]];
      FlattenSnoc(buckets[..n - 1], buckets[n - 1]);
      assert Matches(log[n - 1], buckets[n - 1], b);
      UnpackHeld(log[n - 1].buf, buckets[n - 1]);
    }
  }

  lemma {:induction false} ClosedPrefix(cs: seq<Chunk>, i: nat, b: nat)
    requires i <= |cs|
    ensures Pack(cs[..i], b).closed <= Pack(cs, b).closed
    ensures i < |cs| && Used(Pack(cs[..i], b).open) + cs[i].meta.chunkSize > b ==>
              Sent(Pack(cs[..i], b)) <= Pack(cs, b).closed
    decreases |cs| - i
  {
    if i == |cs| {
      assert cs[..i] == cs;
    } else {
      PackNext(cs, i, b);
      ClosedPrefix(cs, i + 1, b);
    }
  }

  lemma {:induction false} PrefixOf(log: seq<Parcel>, some: seq<Bucket>, all: seq<Bucket>, b: nat)
    requires AllMatch(log, some, b) && some <= all
    ensures |log| <= |all| && AllMatch(log, all[..|log|], b)
  {
    assert all[..|log|] == some;
  }

  /** The log is at all times a prefix of the list of buckets, byte for byte, and all of it
      once the last parcel is out. */
  lemma {:induction false} LogPrefix(p: Packer, cs: seq<Chunk>, b: nat)
    requires SendInv(p, cs, b)
    ensures |p.log| <= |Buckets(cs, b)| && AllMatch(p.log, Buckets(cs, b)[..|p.log|], b)
    ensures LastSent(p) ==> |p.log| == |Buckets(cs, b)|
    ensures !LastSent(p) ==> |p.log| < |Buckets(cs, b)|
  {
    var packed := Pack(cs[..p.next], b);
    ClosedPrefix(cs, p.next, b);
    if LastSent(p) {
      assert cs[..p.next] == cs;
      PrefixOf(p.log, Sent(packed), Buckets(cs, b), b);
    } else if Tracks(p, packed, b) {
      PrefixOf(p.log, packed.closed, Buckets(cs, b), b);
    } else {
      PrefixOf(p.log, Sent(packed), Buckets(cs, b), b);
    }
  }

  /** A bucket has no more chunks than bytes. */
  lemma {:induction false} FewChunks(bucket: Bucket, b: nat)
    requires forall i | 0 <= i < |bucket| :: Fitting(bucket[i], b)
    ensures |bucket| <= Used(bucket)
    decreases |bucket|
  {
    if bucket != [] {
      FewChunks(bucket[..|bucket| - 1], b);
    }
  }

  /** So a parcel never lists more chunks than the buffer has bytes. */
  lemma {:induction false} FewEntries(p: Packer, cs: seq<Chunk>, b: nat, k: nat)
    requires SendInv(p, cs, b) && AllFitting(cs, b) && k < |p.log|
    ensures |p.log[k].entries| <= b
  {
    hide SendInv, Pack, Holds;
    var buckets := Buckets(cs, b);
    LogPrefix(p, cs, b);
    assert Matches(p.log[k], buckets[..|p.log|][k], b);
    PackLaidOut(cs, b);
    PackFits(cs, b);
    assert LaidOut(buckets[k], b);
    FewChunks(buckets[k], b);
  }

  /** What can be unpacked so far is a prefix of all chunks. */
  lemma {:induction false} UnpackedSoFar(p: Packer, cs: seq<Chunk>, b: nat)
    requires SendInv(p, cs, b)
    ensures Unpacked(p.log, |p.log|) <= Flatten(Buckets(cs, b))
    ensures LastSent(p) ==> Unpacked(p.log, |p.log|) == Flatten(Buckets(cs, b))
  {
    var buckets := Buckets(cs, b);
    LogPrefix(p, cs, b);
    UnpackedBuckets(p.log, buckets[..|p.log|], |p.log|, b);
    assert buckets[..|p.log|][..|p.log|] == buckets[..|p.log|];
    FlattenPrefix(buckets, |p.log|);
    assert buckets[..|buckets|] == buckets;
  }

  /** The last parcel is marked, and no other is. */
  lemma {:induction false} OnlyLastIsLast(p: Packer, cs: seq<Chunk>, b: nat, k: nat)
    requires SendInv(p, cs, b) && k < |p.log|
    ensures p.log[k].isLast <==> LastSent(p) && k == |p.log| - 1
  {
  }

  lemma {:induction false} FlattenPrefix(buckets: seq<Bucket>, n: nat)
    requires n <= |buckets|
    ensures Flatten(buckets[..n]) <= Flatten(buckets)
    decreases |buckets|
  {
    if n == |buckets| {
      assert buckets[..n] == buckets;
    } else {
      FlattenPrefix(buckets[..|buckets| - 1], n);
      assert buckets[..|buckets| - 1][..n] == buckets[..n];
    }
  }

  /** What any receiver merges out of a prefix of the parcels: a prefix of the weights, without a
      failed assertion; out of all of them: the weights. */
  lemma {:induction false} MergeReceived(ws: seq<Weight>, b: nat, junk: Junk, p: Packer, got: seq<Chunk>)
    requires b >= 1 && Sendable(ws) && SendInv(p, Split(ws, b), b)
    requires got <= Unpacked(p.log, |p.log|)
    ensures MergeAll(got, b, junk).Ok? && MergeAll(got, b, junk).run.out <= ws
    ensures LastSent(p) && got == Unpacked(p.log, |p.log|) ==> MergeAll(got, b, junk) == Ok(MergeRun(Idle, ws))
  {
    var all := Flatten(Buckets(Split(ws, b), b));
    MergeUndoesPacking(ws, b, junk);
    UnpackedSoFar(p, Split(ws, b), b);
    assert got == all[..|got|];
    MergePrefix(all, |got|, b, junk);
  }

  lemma {:induction false} UnpackedPrefix(log: seq<Parcel>, m: nat, n: nat)
    requires m <= n <= |log|
    ensures Unpacked(log, m) <= Unpacked(log, n)
    decreases n
  {
    if m < n {
      UnpackedPrefix(log, m, n - 1);
    }
  }

  /** What a receiver has yielded after `got` whole parcels and `pos` chunks of the next one. */
  function Yielded(log: seq<Parcel>, got: nat, pos: nat): seq<Chunk>
    requires got < |log| && pos <= |log[got].entries|
  {
    Unpacked(log, got) + Unpack(log[got].entries, log[got].buf)[..pos]
  }

  lemma {:induction false} YieldedNext(log: seq<Parcel>, got: nat, pos: nat)
    requires got < |log| && pos < |log[got].entries|
    ensures Yielded(log, got, pos + 1) == Yielded(log, got, pos) + [View(log[got].entries[pos], log[got].buf)]
  {
    var u := Unpack(log[got].entries, log[got].buf);
    assert u[..pos + 1] == u[..pos] + [u[pos]];
  }

  lemma {:induction false} YieldedNextParcel(log: seq<Parcel>, got: nat)
    requires got + 1 < |log|
    ensures Yielded(log, got + 1, 0) == Yielded(log, got, |log[got].entries|)
  {
    var u := Unpack(log[got].entries, log[got].buf);
    assert u[..|u|] == u;
  }

  lemma {:induction false} YieldedStart(log: seq<Parcel>)
    requires log != []
    ensures Yielded(log, 0, 0) == []
  {
  }

  lemma {:induction false} YieldedPrefix(log: seq<Parcel>, got: nat, pos: nat)
    requires got < |log| && pos <= |log[got].entries|
    ensures Yielded(log, got, pos) <= Unpacked(log, |log|)
  {
    UnpackedPrefix(log, got + 1, |log|);
    var u := Unpack(log[got].entries, log[got].buf);
    assert Unpacked(log, got + 1) == Unpacked(log, got) + u;
    assert Unpacked(log, got) + u[..pos] <= Unpacked(log, got) + u;
  }

  // ------------------------------------------------------- what a receiver sees

  datatype Meta = Meta(entries: seq<TensorMeta>, isLast: bool)

  function MetaOf(parcel: Parcel): Meta {
    Meta(parcel.entries, parcel.isLast)
  }

  ghost predicate Sized(log: seq<Parcel>, b: nat) {
    forall k | 0 <= k < |log| :: |log[k].buf| == b
  }

  ghost predicate Arrived(source: seq<Byte>, buf: seq<Byte>, written: set<nat>) {
    |buf| == |source| && forall j | j in written :: j < |buf| && buf[j] == source[j]
  }

  /** A buffer in which every byte arrived is the parcel. */
  lemma {:induction false} ArrivedWhole(source: seq<Byte>, buf: seq<Byte>, written: set<nat>)
    requires Arrived(source, buf, written) && FullSet(|buf|, written)
    ensures buf == source
  {
  }

  ghost predicate Extends(log: seq<Parcel>, log': seq<Parcel>) {
    |log| <= |log'| && forall k | 0 <= k < |log| :: log'[k] == log[k]
  }

  // ------------------------------------------------------- the loop on real buffers

  /** The frame of `send_weights` with its two buffers in memory. */
  class SendFrame {
    const first: array<Byte>
    const second: array<Byte>
    var sendBuf: array<Byte>
    var recvBuf: array<Byte>
    var bucketMeta: seq<TensorMeta>
    var offset: nat
    ghost var next: nat
    ghost var log: seq<Parcel>

    ghost predicate Valid()
      reads this
    {
      && first != second && first.Length == second.Length
      && ((sendBuf == first && recvBuf == second) || (sendBuf == second && recvBuf == first))
    }

    ghost function State(): Packer
      reads this, first, second
    {
      Packer(next, bucketMeta, offset, [first[..], second[..]], if sendBuf == first then 0 else 1, log)
    }

    constructor (b: nat)
      ensures Valid() && first.Length == b && Started(State()) && Shaped(State(), b)
      ensures fresh(first) && fresh(second)
    {
      var one, two := new Byte[b], new Byte[b];
      first, second, sendBuf, recvBuf := one, two, one, two;
      bucketMeta, offset := [], 0;
      next, log := 0, [];
    }

    /** Create the transport operation for the bucket; the buffer is read later. */
    method HandOut(isLast: bool)
      requires Valid()
      modifies this
      ensures Valid() && State() == (if isLast then Finish(old(State())) else Flush(old(State())))
    {
      log := log + [Parcel(sendBuf[..], bucketMeta, isLast)];
      if !isLast {
        sendBuf, recvBuf := recvBuf, sendBuf;
        bucketMeta := [];
        offset := 0;
      }
    }

    /** Place one chunk; the assertion on its size is a precondition. */
    method Store(c: Chunk)
      requires Valid() && |c.bytes| == c.meta.chunkSize
      requires offset + c.meta.chunkSize <= first.Length
      modifies this, first, second
      ensures Valid() && State() == FillDict(old(State()), c, first.Length)
    {
      bucketMeta := Put(MetaName, bucketMeta, c.meta.(offset := Some(offset)));
      WriteSlice(sendBuf, offset, c.bytes);
      offset := offset + c.meta.chunkSize;
      next := next + 1;
    }

    /** Place one chunk; the two assertions of `send_weights` are the preconditions. */
    method PlaceChunk(c: Chunk)
      requires Valid() && |c.bytes| == c.meta.chunkSize
      requires offset + c.meta.chunkSize <= first.Length
      requires forall i | 0 <= i < |bucketMeta| :: bucketMeta[i].name != c.meta.name
      modifies this, first, second
      ensures Valid() && State() == Fill(old(State()), c, first.Length)
    {
      FreshIsAppended(State(), c, first.Length);
      Store(c);
    }
  }
}
