/** The broadcast schedule of the KIMI engine: every rank builds it from the bucket list, and it does
    not depend on the rank. */
module Kimi {
  import opened Arith

  /** A named stretch of a bucket. */
  datatype Item = Item(name: string, offset: nat, size: nat)

  /** `data` is what its receiver loads for it from the registered checkpoint. */
  datatype Bucket = Bucket(items: seq<Item>, data: seq<int>)

  /** One entry of the list that all ranks compute: the rank that loads the bucket and broadcasts it. */
  datatype Entry = Entry(receiver: nat, owner: nat, bucket: Bucket)

  datatype Op = Op(src: nat, bucket: Bucket)

  // ------------------------------------------------------------------ the schedule

  /** The buckets of one rank, in the order of the list. */
  function Of(entries: seq<Entry>, rank: nat): seq<Bucket> {
    if entries == [] then []
    else
      var last := entries[|entries| - 1];
      Of(entries[..|entries| - 1], rank) + (if last.receiver == rank then [last.bucket] else [])
  }

  /** The ranks that have buckets, in the order in which they first appear. */
  function Order(entries: seq<Entry>): (ranks: seq<nat>)
    ensures forall i, j | 0 <= i < j < |ranks| :: ranks[i] != ranks[j]
    ensures forall r :: r in ranks <==> exists i :: 0 <= i < |entries| && entries[i].receiver == r
  {
    if entries == [] then []
    else
      var last := entries[|entries| - 1].receiver;
      var before := Order(entries[..|entries| - 1]);
      assert entries == entries[..|entries| - 1] + [entries[|entries| - 1]];
      if last in before then before else before + [last]
  }

  /** The length of the longest list of a rank. */
  function Longest(entries: seq<Entry>): nat {
    if entries == [] then 0
    else Max(Longest(entries[..|entries| - 1]), |Of(entries, entries[|entries| - 1].receiver)|)
  }

  /** Round `i` over the first `m` ranks. */
  function Round(entries: seq<Entry>, i: nat, m: nat): seq<Op>
    requires m <= |Order(entries)|
  {
    if m == 0 then []
    else
      var r := Order(entries)[m - 1];
      Round(entries, i, m - 1) + (if i < |Of(entries, r)| then [Op(r, Of(entries, r)[i])] else [])
  }

  function Rounds(entries: seq<Entry>, k: nat): seq<Op> {
    if k == 0 then [] else Rounds(entries, k - 1) + Round(entries, k - 1, |Order(entries)|)
  }

  function Schedule(entries: seq<Entry>): seq<Op> {
    Rounds(entries, Longest(entries))
  }

  // ------------------------------------------------------------------ what it contains

  /** What one rank broadcasts. */
  function FromRank(ops: seq<Op>, rank: nat): seq<Bucket> {
    if ops == [] then []
    else
      var last := ops[|ops| - 1];
      FromRank(ops[..|ops| - 1], rank) + (if last.src == rank then [last.bucket] else [])
  }

  lemma {:induction false} FromRankConcat(a: seq<Op>, b: seq<Op>, rank: nat)
    ensures FromRank(a + b, rank) == FromRank(a, rank) + FromRank(b, rank)
  {
    if b == [] {
      assert a + b == a;
    } else {
      assert (a + b)[..|a + b| - 1] == a + b[..|b| - 1];
      FromRankConcat(a, b[..|b| - 1], rank);
    }
  }

  lemma {:induction false} FromOne(op: Op, rank: nat)
    ensures FromRank([op], rank) == if op.src == rank then [op.bucket] else []
  {
    assert [op][..0] == [];
  }

  /** In round i a rank broadcasts exactly its own i-th bucket. */
  lemma {:induction false} OwnBucketInRound(entries: seq<Entry>, i: nat, m: nat, rank: nat)
    requires m <= |Order(entries)|
    ensures FromRank(Round(entries, i, m), rank)
         == if rank in Order(entries)[..m] && i < |Of(entries, rank)| then [Of(entries, rank)[i]] else []
  {
    hide FromRank, Of, Order;
    FromNothing(rank);
    if m > 0 {
      OwnBucketInRound(entries, i, m - 1, rank);
      var order := Order(entries);
      assert order[..m] == order[..m - 1] + [order[m - 1]];
      var r := order[m - 1];
      if i < |Of(entries, r)| {
        FromRankConcat(Round(entries, i, m - 1), [Op(r, Of(entries, r)[i])], rank);
        FromOne(Op(r, Of(entries, r)[i]), rank);
      } else {
        assert Round(entries, i, m) == Round(entries, i, m - 1);
      }
      assert r !in order[..m - 1];
    }
  }

  lemma {:induction false} NotListed(entries: seq<Entry>, rank: nat)
    requires rank !in Order(entries)
    ensures Of(entries, rank) == []
  {
    if entries != [] {
      var n := |entries| - 1;
      assert entries[n].receiver != rank;
      assert rank !in Order(entries[..n]);
      NotListed(entries[..n], rank);
    }
  }

  lemma {:induction false} FromWholeRound(entries: seq<Entry>, i: nat, rank: nat)
    ensures FromRank(Round(entries, i, |Order(entries)|), rank)
         == if i < |Of(entries, rank)| then [Of(entries, rank)[i]] else []
  {
    var order := Order(entries);
    OwnBucketInRound(entries, i, |order|, rank);
    assert order[..|order|] == order;
    if rank !in order {
      NotListed(entries, rank);
    }
  }

  lemma {:induction false} FromRounds(entries: seq<Entry>, k: nat, rank: nat)
    ensures FromRank(Rounds(entries, k), rank) == Of(entries, rank)[..Min(k, |Of(entries, rank)|)]
  {
    hide Order, Of, Round, FromRank;
    var of := Of(entries, rank);
    if k == 0 {
      FromNothing(rank);
    } else {
      FromRounds(entries, k - 1, rank);
      FromRankConcat(Rounds(entries, k - 1), Round(entries, k - 1, |Order(entries)|), rank);
      FromWholeRound(entries, k - 1, rank);
      if k <= |of| {
        assert of[..k] == of[..k - 1] + [of[k - 1]];
      }
    }
  }

  lemma {:induction false} FromNothing(rank: nat)
    ensures FromRank([], rank) == []
  {
  }

  lemma {:induction false} LongestBounds(entries: seq<Entry>, rank: nat)
    ensures |Of(entries, rank)| <= Longest(entries)
  {
    if entries != [] {
      LongestBounds(entries[..|entries| - 1], rank);
    }
  }

  /** Over the whole schedule every rank broadcasts its own buckets, each once and in order. */
  lemma {:induction false} EachInOrder(entries: seq<Entry>, rank: nat)
    ensures FromRank(Schedule(entries), rank) == Of(entries, rank)
  {
    FromRounds(entries, Longest(entries), rank);
    LongestBounds(entries, rank);
    assert Of(entries, rank)[..|Of(entries, rank)|] == Of(entries, rank);
  }

  lemma {:induction false} CountByRank(ops: seq<Op>, op: Op)
    ensures multiset(ops)[op] == multiset(FromRank(ops, op.src))[op.bucket]
  {
    if ops != [] {
      var n := |ops| - 1;
      assert ops == ops[..n] + [ops[n]];
      CountByRank(ops[..n], op);
    }
  }

  function AsOps(entries: seq<Entry>): (ops: seq<Op>)
    ensures |ops| == |entries|
  {
    seq(|entries|, i requires 0 <= i < |entries| => Op(entries[i].receiver, entries[i].bucket))
  }

  lemma {:induction false} OfIsFromRank(entries: seq<Entry>, rank: nat)
    ensures Of(entries, rank) == FromRank(AsOps(entries), rank)
  {
    if entries != [] {
      var n := |entries| - 1;
      OfIsFromRank(entries[..n], rank);
      assert AsOps(entries)[..n] == AsOps(entries[..n]);
    }
  }

  /** The schedule is a rearrangement of the bucket list. */
  lemma {:induction false} EachOnce(entries: seq<Entry>)
    ensures multiset(Schedule(entries)) == multiset(AsOps(entries))
  {
    forall op ensures multiset(Schedule(entries))[op] == multiset(AsOps(entries))[op] {
      CountByRank(Schedule(entries), op);
      CountByRank(AsOps(entries), op);
      EachInOrder(entries, op.src);
      OfIsFromRank(entries, op.src);
    }
  }

  lemma {:induction false} SameLength(entries: seq<Entry>)
    ensures |Schedule(entries)| == |entries|
  {
    EachOnce(entries);
    assert |multiset(Schedule(entries))| == |multiset(AsOps(entries))|;
  }

  // ------------------------------------------------------------------ in which order

  /** Where a rank first has a bucket in the list. */
  function FirstEntry(entries: seq<Entry>, rank: nat): (i: nat)
    requires exists i :: 0 <= i < |entries| && entries[i].receiver == rank
    ensures i < |entries| && entries[i].receiver == rank
    ensures forall j | 0 <= j < i :: entries[j].receiver != rank
  {
    if entries[0].receiver == rank then 0 else
    assert entries == [entries[0]] + entries[1..];
    FirstEntry(entries[1..], rank) + 1
  }

  /** The ranks come in the order of their first buckets. */
  lemma {:induction false} OrderByFirst(entries: seq<Entry>, i: nat, j: nat)
    requires i < j < |Order(entries)|
    ensures Order(entries)[i] in Order(entries) && Order(entries)[j] in Order(entries)
    ensures FirstEntry(entries, Order(entries)[i]) < FirstEntry(entries, Order(entries)[j])
  {
    var n := |entries| - 1;
    var before := entries[..n];
    var a, b := Order(entries)[i], Order(entries)[j];
    assert entries == before + [entries[n]];
    if j < |Order(before)| {
      OrderByFirst(before, i, j);
      SameFirst(entries, a);
      SameFirst(entries, b);
    } else {
      SameFirst(entries, a);
      assert b !in Order(before) && b == entries[n].receiver;
      assert forall u | 0 <= u < n :: entries[u] == before[u] && before[u].receiver != b;
    }
  }

  lemma {:induction false} SameFirst(entries: seq<Entry>, rank: nat)
    requires entries != [] && rank in Order(entries[..|entries| - 1])
    ensures rank in Order(entries)
    ensures FirstEntry(entries, rank) == FirstEntry(entries[..|entries| - 1], rank)
  {
    hide Order;
    var before := entries[..|entries| - 1];
    var f := FirstEntry(before, rank);
    assert entries[f] == before[f];
    assert forall j | 0 <= j < f :: entries[j] == before[j];
  }

  /** Where a rank is in the order. */
  function PlaceOf(order: seq<nat>, rank: nat): (i: nat)
    requires rank in order
    ensures i < |order| && order[i] == rank
  {
    if order[0] == rank then 0 else PlaceOf(order[1..], rank) + 1
  }

  /** One round takes the ranks in their order, each at most once. */
  lemma {:induction false} RoundInOrder(entries: seq<Entry>, i: nat, m: nat, t: nat)
    requires m <= |Order(entries)| && t < |Round(entries, i, m)|
    ensures var op := Round(entries, i, m)[t];
            && op.src in Order(entries) && PlaceOf(Order(entries), op.src) < m
            && i < |Of(entries, op.src)| && op.bucket == Of(entries, op.src)[i]
    ensures forall t' | t < t' < |Round(entries, i, m)| ::
              Round(entries, i, m)[t'].src in Order(entries)
              && PlaceOf(Order(entries), Round(entries, i, m)[t].src)
                 < PlaceOf(Order(entries), Round(entries, i, m)[t'].src)
  {
    hide Order, Of;
    var order := Order(entries);
    var r := order[m - 1];
    assert PlaceOf(order, r) == m - 1;
    if t < |Round(entries, i, m - 1)| {
      RoundInOrder(entries, i, m - 1, t);
    }
  }

  lemma {:induction false} RoundsPrefix(entries: seq<Entry>, i: nat, k: nat)
    requires i <= k
    ensures Rounds(entries, i) <= Rounds(entries, k)
  {
    if i < k {
      RoundsPrefix(entries, i, k - 1);
    }
  }

  /** Which round a position belongs to. */
  lemma {:induction false} RoundOfPosition(entries: seq<Entry>, k: nat, p: nat) returns (i: nat, t: nat)
    requires p < |Rounds(entries, k)|
    ensures i < k && t < |Round(entries, i, |Order(entries)|)| && p == |Rounds(entries, i)| + t
    ensures Rounds(entries, k)[p] == Round(entries, i, |Order(entries)|)[t]
    ensures p < |Rounds(entries, i + 1)|
  {
    hide Order, Round;
    if p < |Rounds(entries, k - 1)| {
      i, t := RoundOfPosition(entries, k - 1, p);
    } else {
      i, t := k - 1, p - |Rounds(entries, k - 1)|;
    }
  }

  /** How many buckets of its source an operation of the schedule comes after. */
  function Turn(ops: seq<Op>, p: nat): nat
    requires p < |ops|
  {
    |FromRank(ops[..p], ops[p].src)|
  }

  lemma {:induction false} TurnIsRound(entries: seq<Entry>, k: nat, i: nat, t: nat)
    requires i < k && t < |Round(entries, i, |Order(entries)|)|
    ensures var p := |Rounds(entries, i)| + t; p < |Rounds(entries, k)| && Turn(Rounds(entries, k), p) == i
  {
    hide Order, Of, Round, FromRank;
    var p, round := |Rounds(entries, i)| + t, Round(entries, i, |Order(entries)|);
    RoundsPrefix(entries, i + 1, k);
    RoundsNext(entries, i);
    var all := Rounds(entries, k);
    assert all[..|Rounds(entries, i + 1)|] == Rounds(entries, i) + round;
    assert all[..p] == Rounds(entries, i) + round[..t];
    var rank := round[t].src;
    assert all[p] == round[t];
    FromRankConcat(Rounds(entries, i), round[..t], rank);
    FromRounds(entries, i, rank);
    RoundInOrder(entries, i, |Order(entries)|, t);
    forall u | 0 <= u < t ensures round[u].src != rank {
      RoundInOrder(entries, i, |Order(entries)|, u);
    }
    NoneFrom(round[..t], rank);
  }

  lemma {:induction false} NoneFrom(ops: seq<Op>, rank: nat)
    requires forall u | 0 <= u < |ops| :: ops[u].src != rank
    ensures FromRank(ops, rank) == []
  {
    if ops != [] {
      NoneFrom(ops[..|ops| - 1], rank);
    }
  }

  /** The schedule takes turns: first the first buckets of all ranks, then the second ones, and so on, and in
      each turn the ranks come in the order of their first buckets. */
  lemma {:induction false} TakesTurns(entries: seq<Entry>, p: nat, q: nat)
    requires p < q < |Schedule(entries)|
    ensures var plan, order := Schedule(entries), Order(entries);
            && plan[p].src in order && plan[q].src in order
            && (Turn(plan, p) < Turn(plan, q)
                || (Turn(plan, p) == Turn(plan, q) && PlaceOf(order, plan[p].src) < PlaceOf(order, plan[q].src)))
  {
    hide Order, Round, Rounds, Turn, Longest, PlaceOf, Of;
    var k := Longest(entries);
    var i, t := RoundOfPosition(entries, k, p);
    var i', t' := RoundOfPosition(entries, k, q);
    TurnIsRound(entries, k, i, t);
    TurnIsRound(entries, k, i', t');
    RoundInOrder(entries, i, |Order(entries)|, t);
    RoundInOrder(entries, i', |Order(entries)|, t');
    if i' < i {
      RoundsPrefix(entries, i' + 1, i);
      assert false;
    }
  }

  // ------------------------------------------------------------------ the loops of `receive_tensor`

  /** A broadcast as one rank issues it: its half of the buffer, and what the rank wrote there first
      when it is the source. */
  datatype Issued = Issued(op: Op, half: nat, wrote: seq<int>)

  ghost predicate Issues(issued: seq<Issued>, ops: seq<Op>, rank: nat) {
    && |issued| == |ops|
    && forall g | 0 <= g < |ops| ::
         && issued[g].op == ops[g] && issued[g].half == g % 2
         && issued[g].wrote == if ops[g].src == rank then ops[g].bucket.data else []
  }

  lemma {:induction false} NothingIssued(rank: nat)
    ensures Issues([], [], rank)
  {
  }

  lemma {:induction false} SameCount(issued: seq<Issued>, ops: seq<Op>, rank: nat)
    requires Issues(issued, ops, rank)
    ensures |issued| == |ops|
  {
  }

  lemma {:induction false} IssueOneMore(issued: seq<Issued>, ops: seq<Op>, rank: nat, op: Op, wrote: seq<int>)
    requires Issues(issued, ops, rank) && wrote == if op.src == rank then op.bucket.data else []
    ensures Issues(issued + [Issued(op, |issued| % 2, wrote)], ops + [op], rank)
  {
  }

  lemma {:induction false} NoEntries(entries: seq<Entry>)
    requires entries == []
    ensures Order(entries) == [] && Longest(entries) == 0
  {
  }

  lemma {:induction false} OneEntryMore(entries: seq<Entry>, n: nat)
    requires n < |entries|
    ensures forall r :: Of(entries[..n + 1], r)
                     == Of(entries[..n], r) + (if entries[n].receiver == r then [entries[n].bucket] else [])
    ensures Order(entries[..n + 1])
         == Order(entries[..n]) + (if entries[n].receiver in Order(entries[..n]) then [] else [entries[n].receiver])
    ensures Longest(entries[..n + 1])
         == Max(Longest(entries[..n]), |Of(entries[..n], entries[n].receiver)| + 1)
  {
    assert entries[..n + 1][..n] == entries[..n];
  }

  /** The buckets by rank, and the order in which the ranks entered the dictionary. */
  method GroupByReceiver(entries: seq<Entry>)
    returns (byRank: map<nat, seq<Bucket>>, order: seq<nat>, maxLen: nat)
    ensures order == Order(entries) && maxLen == Longest(entries)
    ensures forall r :: r in byRank <==> r in order
    ensures forall r | r in byRank :: byRank[r] == Of(entries, r)
  {
    hide Of, Order, Longest;
    byRank, order, maxLen := map[], [], 0;
    NoEntries(entries[..0]);
    for n := 0 to |entries|
      invariant order == Order(entries[..n]) && maxLen == Longest(entries[..n])
      invariant forall r :: r in byRank <==> r in order
      invariant forall r | r in byRank :: byRank[r] == Of(entries[..n], r)
    {
      OneEntryMore(entries, n);
      var r := entries[n].receiver;
      if r !in byRank {
        NotListed(entries[..n], r);
        byRank := byRank[r := []];
        order := order + [r];
      }
      byRank := byRank[r := byRank[r] + [entries[n].bucket]];
      if |byRank[r]| > maxLen {
        maxLen := |byRank[r]|;
      }
    }
    assert entries[..|entries|] == entries;
  }

  /** The buckets of this rank. */
  method OwnBuckets(entries: seq<Entry>, rank: nat) returns (own: seq<Bucket>)
    ensures own == Of(entries, rank)
  {
    own := [];
    for n := 0 to |entries|
      invariant own == Of(entries[..n], rank)
    {
      assert entries[..n + 1][..n] == entries[..n];
      if entries[n].receiver == rank {
        own := own + [entries[n].bucket];
      }
    }
    assert entries[..|entries|] == entries;
  }

  /** One round. With the staging buffer a rank loads its bucket at the start of the round and writes
      it when its turn comes. */
  method IssueRound(entries: seq<Entry>, rank: nat, useStaging: bool, i: nat, own: seq<Bucket>,
                    byRank: map<nat, seq<Bucket>>, order: seq<nat>, before: seq<Issued>)
    returns (issued: seq<Issued>)
    requires own == Of(entries, rank) && order == Order(entries)
    requires forall r | r in order :: r in byRank && byRank[r] == Of(entries, r)
    requires Issues(before, Rounds(entries, i), rank)
    ensures Issues(issued, Rounds(entries, i + 1), rank)
  {
    hide Of, Order, Issues, Rounds;
    var staging: seq<int> := if i < |own| && useStaging then own[i].data else [];
    issued := before;
    assert Rounds(entries, i) + Round(entries, i, 0) == Rounds(entries, i);
    for m := 0 to |order|
      invariant Issues(issued, Rounds(entries, i) + Round(entries, i, m), rank)
    {
      var src := order[m];
      var buckets := byRank[src];
      if i < |buckets| {
        var wrote: seq<int> := [];
        if src == rank {
          wrote := if useStaging then staging else buckets[i].data;
        }
        IssueOneMore(issued, Rounds(entries, i) + Round(entries, i, m), rank, Op(src, buckets[i]), wrote);
        assert Rounds(entries, i) + Round(entries, i, m + 1)
            == Rounds(entries, i) + Round(entries, i, m) + [Op(src, buckets[i])];
        issued := issued + [Issued(Op(src, buckets[i]), |issued| % 2, wrote)];
      } else {
        assert Round(entries, i, m + 1) == Round(entries, i, m);
      }
    }
    RoundsNext(entries, i);
  }

  lemma {:induction false} RoundsNext(entries: seq<Entry>, i: nat)
    ensures Rounds(entries, i + 1) == Rounds(entries, i) + Round(entries, i, |Order(entries)|)
  {
  }

  /** All rounds; the number of broadcasts issued so far picks the half. With no bucket at all the last
      metadata is never bound. */
  method IssueAll(entries: seq<Entry>, rank: nat, useStaging: bool) returns (bound: bool, issued: seq<Issued>)
    ensures bound <==> entries != []
    ensures Issues(issued, Schedule(entries), rank)
  {
    hide Of, Order, Longest, Issues;
    NothingIssued(rank);
    var own := OwnBuckets(entries, rank);
    var byRank, order, maxLen := GroupByReceiver(entries);
    issued := [];
    for i := 0 to maxLen
      invariant Issues(issued, Rounds(entries, i), rank)
    {
      issued := IssueRound(entries, rank, useStaging, i, own, byRank, order, issued);
    }
    bound := |issued| > 0;
    SameCount(issued, Schedule(entries), rank);
    SameLength(entries);
  }

  /** Any two ranks issue the same broadcasts, on the same halves. */
  lemma {:induction false} SameForAllRanks(
    entries: seq<Entry>, a: nat, b: nat, issuedA: seq<Issued>, issuedB: seq<Issued>)
    requires Issues(issuedA, Schedule(entries), a) && Issues(issuedB, Schedule(entries), b)
    ensures |issuedA| == |issuedB| == |entries|
    ensures forall g | 0 <= g < |issuedA| :: issuedA[g].op == issuedB[g].op && issuedA[g].half == issuedB[g].half
  {
    SameLength(entries);
  }
}
