/** What each trainer rank of the KIMI engine loads: its share of the weights, in buckets. */
module KimiShares {
  import opened Arith
  import opened Dictionaries

  datatype Weight = Weight(name: string, data: seq<int>)

  /** The weights of one trainer rank: every world-th, starting at its own number. */
  function Share(weights: seq<Weight>, world: nat, rank: nat): seq<Weight>
    requires world > 0
  {
    if weights == [] then []
    else
      var n := |weights| - 1;
      Share(weights[..n], world, rank) + (if n % world == rank then [weights[n]] else [])
  }

  /** Weight k of the share of a rank is weight `rank + k * world` of all. */
  lemma {:induction false} ShareAt(weights: seq<Weight>, world: nat, rank: nat, k: nat)
    requires rank < world
    ensures k < |Share(weights, world, rank)| <==> rank + k * world < |weights|
    ensures k < |Share(weights, world, rank)| ==> Share(weights, world, rank)[k] == weights[rank + k * world]
  {
    ShareLength(weights, world, rank);
    var share := Share(weights, world, rank);
    if k < |share| {
      TimesGrows(k, |share| - 1, world);
    } else {
      TimesGrows(|share|, k, world);
    }
    if weights != [] && k < |share| {
      var n := |weights| - 1;
      ShareLength(weights[..n], world, rank);
      if k < |Share(weights[..n], world, rank)| {
        ShareAt(weights[..n], world, rank, k);
      } else {
        ShareLast(|weights|, |share|, world, rank);
      }
    }
  }

  lemma {:induction false} ShareLength(weights: seq<Weight>, world: nat, rank: nat)
    requires rank < world
    ensures var m := |Share(weights, world, rank)|;
            && rank + m * world >= |weights|
            && (m > 0 ==> rank + (m - 1) * world < |weights|)
  {
    if weights != [] {
      var n := |weights| - 1;
      ShareLength(weights[..n], world, rank);
      ShareStep(n, |Share(weights[..n], world, rank)|, world, rank);
    }
  }

  /** Whether position `n` is the next of the rank that has `m` before it. */
  lemma {:induction false} ShareStep(n: nat, m: nat, world: nat, rank: nat)
    requires rank < world && rank + m * world >= n && (m > 0 ==> rank + (m - 1) * world < n)
    ensures n % world == rank <==> n == rank + m * world
  {
    if n == rank + m * world {
      QuotientIs(n, world, m);
    }
    if n % world == rank {
      var q := n / world;
      assert n == q * world + rank;
      if q < m {
        TimesGrows(q, m - 1, world);
      }
    }
    assert m > 0 ==> m * world == (m - 1) * world + world;
  }

  lemma {:induction false} ShareLast(n: nat, m: nat, world: nat, rank: nat)
    requires m > 0 && rank < world && rank + m * world >= n && rank + (m - 1) * world < n
    requires (n - 1) % world == rank
    ensures n - 1 == rank + (m - 1) * world
  {
    var q := (n - 1) / world;
    assert n - 1 == q * world + rank;
    assert m * world == (m - 1) * world + world;
    if q >= m {
      TimesGrows(m, q, world);
    }
    if q < m - 1 {
      TimesGrows(q + 1, m - 1, world);
    }
  }

  function Concat(buckets: seq<seq<Weight>>): seq<Weight> {
    if buckets == [] then [] else Concat(buckets[..|buckets| - 1]) + buckets[|buckets| - 1]
  }

  function Bytes(bucket: seq<Weight>): nat {
    if bucket == [] then 0 else Bytes(bucket[..|bucket| - 1]) + |bucket[|bucket| - 1].data|
  }

  /** A bucket is not empty, and only a single weight may be larger than the limit. */
  predicate Fits(bucket: seq<Weight>, limit: int) {
    bucket != [] && (Bytes(bucket) <= limit || |bucket| == 1)
  }

  /** No bucket had room for the first weight of the next one. */
  predicate Full(bucket: seq<Weight>, next: seq<Weight>, limit: int) {
    next != [] && Bytes(bucket) + |next[0].data| > limit
  }

  ghost predicate Tight(buckets: seq<seq<Weight>>, limit: int) {
    && (forall b | 0 <= b < |buckets| :: Fits(buckets[b], limit))
    && forall a, b | 0 <= a && b == a + 1 && b < |buckets| :: Full(buckets[a], buckets[b], limit)
  }

  /** The buckets yielded so far with the current one. */
  function Closed(done: seq<seq<Weight>>, current: seq<Weight>): seq<seq<Weight>> {
    if current == [] then done else done + [current]
  }

  lemma {:induction false} ConcatSnoc(buckets: seq<seq<Weight>>, b: seq<Weight>)
    ensures Concat(buckets + [b]) == Concat(buckets) + b
  {
    assert (buckets + [b])[..|buckets|] == buckets;
  }

  lemma {:induction false} BytesSnoc(bucket: seq<Weight>, w: Weight)
    ensures Bytes(bucket + [w]) == Bytes(bucket) + |w.data|
  {
    assert (bucket + [w])[..|bucket|] == bucket;
  }

  lemma {:induction false} NoBytes()
    ensures Bytes([]) == 0
  {
  }

  lemma {:induction false} OpenNext(done: seq<seq<Weight>>, current: seq<Weight>, w: Weight, limit: int)
    requires current != [] && Tight(done + [current], limit) && Bytes(current) + |w.data| > limit
    ensures Tight(done + [current] + [[w]], limit)
    ensures Concat(done + [current] + [[w]]) == Concat(done + [current]) + [w]
  {
    hide Concat;
    ConcatSnoc(done + [current], [w]);
    assert Full(current, [w], limit);
  }

  lemma {:induction false} PutInto(done: seq<seq<Weight>>, current: seq<Weight>, w: Weight, limit: int)
    requires Tight(Closed(done, current), limit) && (current == [] ==> done == [])
    requires current == [] || Bytes(current) + |w.data| <= limit
    ensures Tight(done + [current + [w]], limit)
    ensures Concat(done + [current + [w]]) == Concat(Closed(done, current)) + [w]
  {
    hide Concat, Bytes;
    ConcatSnoc(done, current + [w]);
    ConcatSnoc(done, current);
    BytesSnoc(current, w);
    if current == [] {
      assert done == [];
    } else {
      assert Concat(done) + current + [w] == Concat(done) + (current + [w]);
      var before, after := done + [current], done + [current + [w]];
      forall a, b | 0 <= a && b == a + 1 && b < |after| ensures Full(after[a], after[b], limit) {
        assert Full(before[a], before[b], limit);
      }
      forall b | 0 <= b < |after| ensures Fits(after[b], limit) {
        assert Fits(before[b], limit);
      }
    }
  }

  // ------------------------------------------------------------------ buckets by name

  function NameOf(w: Weight): string {
    w.name
  }

  /** `current_bucket`, after a list of weights was put into it. */
  function AsBucket(ws: seq<Weight>): seq<Weight> {
    AsDict(NameOf, ws)
  }

  predicate DistinctNames(ws: seq<Weight>) {
    DistinctKeys(NameOf, ws)
  }

  function AsBuckets(raw: seq<seq<Weight>>): (buckets: seq<seq<Weight>>)
    ensures |buckets| == |raw| && forall b | 0 <= b < |raw| :: buckets[b] == AsBucket(raw[b])
  {
    seq(|raw|, b requires 0 <= b < |raw| => AsBucket(raw[b]))
  }

  lemma {:induction false} DictsNext(raw: seq<seq<Weight>>, put: seq<Weight>)
    ensures AsBuckets(raw + [put]) == AsBuckets(raw) + [AsBucket(put)]
  {
  }

  /** All weights of the share are loaded exactly when no bucket received two of one name. */
  lemma {:induction false} NoneIsLost(raw: seq<seq<Weight>>)
    ensures |Concat(AsBuckets(raw))| <= |Concat(raw)|
    ensures Concat(AsBuckets(raw)) == Concat(raw) <==> forall b | 0 <= b < |raw| :: DistinctNames(raw[b])
    ensures |Concat(AsBuckets(raw))| == |Concat(raw)| <==> forall b | 0 <= b < |raw| :: DistinctNames(raw[b])
  {
    hide AsDict;
    if raw != [] {
      var n := |raw| - 1;
      NoneIsLost(raw[..n]);
      AsDictKeeps(NameOf, raw[n]);
      assert AsBuckets(raw)[..n] == AsBuckets(raw[..n]);
      assert Concat(AsBuckets(raw)) == Concat(AsBuckets(raw[..n])) + AsBucket(raw[n]);
      assert forall b | 0 <= b < n :: raw[..n][b] == raw[b];
    }
  }

  lemma {:induction false} ShareNext(weights: seq<Weight>, n: nat, world: nat, rank: nat)
    requires world > 0 && n < |weights|
    ensures var before := Share(weights[..n], world, rank);
            Share(weights[..n + 1], world, rank) == if n % world == rank then before + [weights[n]] else before
  {
    assert weights[..n + 1][..n] == weights[..n];
  }

  /** What is known between two weights. */
  ghost predicate Filling(
    raw: seq<seq<Weight>>, put: seq<Weight>, share: seq<Weight>, limit: int, buckets: seq<seq<Weight>>,
    current: seq<Weight>)
  {
    && Concat(Closed(raw, put)) == share && Tight(Closed(raw, put), limit) && (put == [] ==> raw == [])
    && buckets == AsBuckets(raw) && current == AsBucket(put)
  }

  lemma {:induction false} StartFilling(limit: int)
    ensures Filling([], [], [], limit, [], []) && Bytes([]) == 0
  {
  }

  lemma {:induction false} FillMore(
    raw: seq<seq<Weight>>, put: seq<Weight>, share: seq<Weight>, limit: int, buckets: seq<seq<Weight>>,
    current: seq<Weight>, w: Weight)
    requires Filling(raw, put, share, limit, buckets, current)
    requires put == [] || Bytes(put) + |w.data| <= limit
    ensures Filling(raw, put + [w], share + [w], limit, buckets, Put(NameOf, current, w))
    ensures Bytes(put + [w]) == Bytes(put) + |w.data|
  {
    hide Tight, Concat, AsDict, Put;
    BytesSnoc(put, w);
    PutInto(raw, put, w, limit);
    DictNext(NameOf, put, w);
  }

  lemma {:induction false} FillNext(
    raw: seq<seq<Weight>>, put: seq<Weight>, share: seq<Weight>, limit: int, buckets: seq<seq<Weight>>,
    current: seq<Weight>, w: Weight)
    requires Filling(raw, put, share, limit, buckets, current) && put != [] && Bytes(put) + |w.data| > limit
    ensures Filling(raw + [put], [w], share + [w], limit, buckets + [current], Put(NameOf, [], w))
    ensures Bytes([w]) == |w.data|
  {
    hide Tight, Concat, AsDict, AsBuckets, Put;
    NoBytes();
    BytesSnoc([], w);
    assert [] + [w] == [w];
    OpenNext(raw, put, w, limit);
    DictsNext(raw, put);
    DictNext(NameOf, [], w);
    NoDict();
  }

  lemma {:induction false} NoDict()
    ensures AsBucket([]) == []
  {
  }

  lemma {:induction false} StopFilling(
    raw: seq<seq<Weight>>, put: seq<Weight>, share: seq<Weight>, limit: int, buckets: seq<seq<Weight>>,
    current: seq<Weight>)
    requires Filling(raw, put, share, limit, buckets, current)
    ensures current == [] <==> put == []
    ensures Closed(buckets, current) == AsBuckets(Closed(raw, put))
    ensures Concat(Closed(raw, put)) == share && Tight(Closed(raw, put), limit)
  {
    hide Tight, Concat;
    DictNext(NameOf, put, Weight("", []));
  }

  /** `ckpt_get_named_tensor_buckets`. The weights of the share go into buckets in order; `raw` is what
      was put into each, and the bucket yielded is the dictionary of that. */
  method NamedTensorBuckets(weights: seq<Weight>, limit: int, world: nat, rank: nat)
    returns (ok: bool, buckets: seq<seq<Weight>>, ghost raw: seq<seq<Weight>>)
    requires world > 0
    ensures ok <==> limit > 0
    ensures ok ==> Concat(raw) == Share(weights, world, rank) && Tight(raw, limit)
    ensures ok ==> buckets == AsBuckets(raw)
    ensures ok ==> (Concat(buckets) == Share(weights, world, rank) <==>
                    forall b | 0 <= b < |raw| :: DistinctNames(raw[b]))
  {
    hide Filling, Concat, Tight, Bytes, AsBucket, AsBuckets, Put, DistinctNames;
    buckets, raw := [], [];
    if limit <= 0 {
      return false, buckets, raw;
    }
    var current: seq<Weight> := [];
    ghost var put: seq<Weight> := [];
    var size := 0;
    StartFilling(limit);
    assert weights[..0] == [];
    for n := 0 to |weights|
      invariant Filling(raw, put, Share(weights[..n], world, rank), limit, buckets, current) && size == Bytes(put)
    {
      ShareNext(weights, n, world, rank);
      if n % world == rank {
        ghost var share := Share(weights[..n], world, rank);
        var w := weights[n];
        StopFilling(raw, put, share, limit, buckets, current);
        if size + |w.data| > limit && current != [] {
          FillNext(raw, put, share, limit, buckets, current, w);
          buckets, raw := buckets + [current], raw + [put];
          current, put, size := [], [], 0;
        } else {
          FillMore(raw, put, share, limit, buckets, current, w);
        }
        assert [w] == [] + [w];
        current, put := Put(NameOf, current, w), put + [w];
        size := size + |w.data|;
      }
    }
    assert weights[..|weights|] == weights;
    StopFilling(raw, put, Share(weights, world, rank), limit, buckets, current);
    if current != [] {
      buckets, raw := buckets + [current], raw + [put];
    }
    NoneIsLost(raw);
    ok := true;
  }

  lemma {:induction false} BytesAppend(a: seq<Weight>, b: seq<Weight>)
    ensures Bytes(a + b) == Bytes(a) + Bytes(b)
  {
    hide Bytes;
    if b == [] {
      NoBytes();
      assert a + b == a;
    } else {
      var n := |b| - 1;
      BytesAppend(a, b[..n]);
      BytesSnoc(b[..n], b[n]);
      assert b == b[..n] + [b[n]];
      BytesSnoc(a + b[..n], b[n]);
      assert a + b == a + b[..n] + [b[n]];
    }
  }

  lemma {:induction false} FirstBytes(bucket: seq<Weight>)
    requires bucket != []
    ensures Bytes(bucket) >= |bucket[0].data|
  {
    BytesAppend([bucket[0]], bucket[1..]);
    BytesSnoc([], bucket[0]);
    assert [bucket[0]] + bucket[1..] == bucket && [] + [bucket[0]] == [bucket[0]];
  }

  /** What fits in one bucket goes into one. */
  lemma {:induction false} OneBucket(raw: seq<seq<Weight>>, limit: int)
    requires Tight(raw, limit) && Bytes(Concat(raw)) <= limit
    ensures |raw| <= 1
  {
    hide Bytes;
    if |raw| >= 2 {
      var n := |raw| - 1;
      assert Full(raw[n - 1], raw[n], limit);
      FirstBytes(raw[n]);
      BytesAppend(Concat(raw[..n]), raw[n]);
      assert raw[..n][..n - 1] == raw[..n - 1];
      BytesAppend(Concat(raw[..n - 1]), raw[n - 1]);
    }
  }

  /** Two weights of one name in one bucket: the first is lost. */
  method LosesTheFirst(name: string, x: int, y: int) returns (buckets: seq<seq<Weight>>)
    ensures buckets == [[Weight(name, [y])]]
    ensures Concat(buckets) != Share([Weight(name, [x]), Weight(name, [y])], 1, 0)
  {
    hide AsDict, Concat, Tight, Bytes, Share;
    var weights := [Weight(name, [x]), Weight(name, [y])];
    var ok;
    ghost var raw;
    ok, buckets, raw := NamedTensorBuckets(weights, 10, 1, 0);
    SmallShare(weights);
    OneBucket(raw, 10);
    WholeBucket(raw);
    TwoOfOneName(weights);
    assert NameOf(raw[0][0]) == NameOf(raw[0][1]);
  }

  lemma {:induction false} SmallShare(weights: seq<Weight>)
    requires |weights| == 2 && |weights[0].data| == |weights[1].data| == 1
    ensures Share(weights, 1, 0) == weights && Bytes(weights) == 2
  {
    hide Share, Bytes;
    var first := [weights[0]];
    assert weights == first + [weights[1]];
    ShareOfAll([], weights[0]);
    ShareOfAll(first, weights[1]);
    assert [] + first == first;
    NoShare();
    NoBytes();
    BytesSnoc([], weights[0]);
    BytesSnoc(first, weights[1]);
  }

  lemma {:induction false} NoShare()
    ensures Share([], 1, 0) == []
  {
  }

  /** A single rank has the share of all. */
  lemma {:induction false} ShareOfAll(weights: seq<Weight>, w: Weight)
    ensures Share(weights + [w], 1, 0) == Share(weights, 1, 0) + [w]
  {
    hide Share;
    var all := weights + [w];
    assert |weights| % 1 == 0;
    ShareNext(all, |weights|, 1, 0);
    assert all[..|weights|] == weights && all[..|weights| + 1] == all;
  }

  lemma {:induction false} WholeBucket(raw: seq<seq<Weight>>)
    requires |raw| <= 1
    ensures Concat(raw) != [] ==> raw == [Concat(raw)]
  {
    if |raw| == 1 {
      var only := raw[0];
      assert raw == [] + [only];
      ConcatSnoc([], only);
      assert Concat([]) == [];
      assert [] + only == only;
      assert raw == [only];
    } else {
      assert raw == [];
    }
  }

  lemma {:induction false} TwoOfOneName(weights: seq<Weight>)
    requires |weights| == 2 && weights[0].name == weights[1].name
    ensures AsBucket(weights) == [weights[1]]
  {
    DictNext(NameOf, [], weights[0]);
    DictNext(NameOf, [weights[0]], weights[1]);
    assert [] + [weights[0]] == [weights[0]] && [weights[0]] + [weights[1]] == weights;
    assert NameOf(weights[0]) == NameOf(weights[1]) && [weights[0]][1..] == [];
    assert Put(NameOf, [weights[0]], weights[1]) == [weights[1]];
  }

  // ------------------------------------------------------------------ all ranks together

  /** What the first `ranks` ranks load. */
  function Shares(weights: seq<Weight>, world: nat, ranks: nat): multiset<Weight>
    requires world > 0
  {
    if ranks == 0 then multiset{} else Shares(weights, world, ranks - 1) + multiset(Share(weights, world, ranks - 1))
  }

  lemma {:induction false} ShareSnoc(weights: seq<Weight>, world: nat, rank: nat)
    requires world > 0 && weights != []
    ensures var n := |weights| - 1;
            multiset(Share(weights, world, rank))[weights[n]] ==
            multiset(Share(weights[..n], world, rank))[weights[n]] + (if n % world == rank then 1 else 0)
    ensures var n := |weights| - 1;
            forall w | w != weights[n] ::
              multiset(Share(weights, world, rank))[w] == multiset(Share(weights[..n], world, rank))[w]
  {
  }

  lemma {:induction false} SharesSnoc(weights: seq<Weight>, world: nat, ranks: nat, w: Weight)
    requires world > 0 && weights != [] && ranks <= world
    ensures var n := |weights| - 1;
            Shares(weights, world, ranks)[w] ==
            Shares(weights[..n], world, ranks)[w] + (if w == weights[n] && n % world < ranks then 1 else 0)
  {
    hide Share;
    if ranks > 0 {
      SharesSnoc(weights, world, ranks - 1, w);
      ShareSnoc(weights, world, ranks - 1);
    }
  }

  lemma {:induction false} NoShares(world: nat, ranks: nat)
    requires world > 0
    ensures Shares([], world, ranks) == multiset{}
  {
    if ranks > 0 {
      NoShares(world, ranks - 1);
    }
  }

  /** The shares of all trainer ranks together hold every weight exactly as often as it occurs. */
  lemma {:induction false} SharesHoldAll(weights: seq<Weight>, world: nat)
    requires world > 0
    ensures Shares(weights, world, world) == multiset(weights)
  {
    hide Shares;
    if weights == [] {
      NoShares(world, world);
    } else {
      var n := |weights| - 1;
      SharesHoldAll(weights[..n], world);
      assert weights == weights[..n] + [weights[n]];
      forall w ensures Shares(weights, world, world)[w] == multiset(weights)[w] {
        SharesSnoc(weights, world, world, w);
      }
    }
  }
}
