/** All ranks at work on the schedule of the KIMI engine: each launches the next broadcast, hands out
    views of the half it received before, and waits. While a broadcast is under way at its source, each
    byte is read from the source's half once for each other rank; while it is under way at a rank, the
    bytes read for it are written to its half: at any moment, in any order. */
module KimiRuns {
  import opened Kimi
  import Arith
  import Counting

  datatype Named = Named(name: string, data: seq<int>)

  /** Byte `j` of broadcast `g`, and the same on its way to rank `r`. */
  datatype Place = Place(g: nat, j: nat)

  datatype Slot = Slot(r: nat, place: Place)

  /** `launched` and `completed` count broadcasts; `written` are the bytes that arrived so far; `emitted`
      counts the items handed out of the last completed broadcast; `out` is all that was handed out. */
  datatype Rank = Rank(
    low: seq<int>, high: seq<int>, launched: nat, completed: nat, written: set<Place>, emitted: nat, out: seq<Named>)

  /** `wire` holds the bytes that were read at their sources. */
  datatype World = World(ranks: seq<Rank>, wire: map<Slot, int>)

  datatype Event =
    | Launch(r: nat) | ReadByte(r: nat, p: Place) | WriteByte(r: nat, j: nat) | Emit(r: nat) | Complete(r: nat)

  /** The common schedule. The receiver of a bucket is a rank, the bucket fits in a half, and its items
      lie in it. */
  ghost predicate GoodPlan(plan: seq<Op>, size: nat, n: nat) {
    forall g | 0 <= g < |plan| ::
      && plan[g].src < n && |plan[g].bucket.data| <= size
      && forall i | 0 <= i < |plan[g].bucket.items| ::
           plan[g].bucket.items[i].offset + plan[g].bucket.items[i].size <= |plan[g].bucket.data|
  }

  function Half(k: Rank, g: nat): seq<int> {
    if g % 2 == 0 then k.low else k.high
  }

  /** The start of a half is overwritten; the rest stays. */
  function Write(k: Rank, g: nat, data: seq<int>): Rank
    requires |data| <= |Half(k, g)|
  {
    var half := data + Half(k, g)[|data|..];
    if g % 2 == 0 then k.(low := half) else k.(high := half)
  }

  function View(half: seq<int>, item: Item): Named
    requires item.offset + item.size <= |half|
  {
    Named(item.name, half[item.offset..item.offset + item.size])
  }

  /** The items of the last completed broadcast. */
  function ItemsBefore(plan: seq<Op>, completed: nat): seq<Item>
    requires completed <= |plan|
  {
    if completed == 0 then [] else plan[completed - 1].bucket.items
  }

  /** Whether a rank has a broadcast under way. */
  predicate UnderWay(k: Rank) {
    k.launched == k.completed + 1
  }

  /** Broadcast `g` was read for rank `r`. */
  ghost predicate WhollyRead(plan: seq<Op>, wire: map<Slot, int>, r: nat, g: nat)
    requires g < |plan|
  {
    forall j: nat | j < |plan[g].bucket.data| :: Slot(r, Place(g, j)) in wire
  }

  /** Broadcast `g` was read for every rank but its source. */
  ghost predicate ReadForAll(plan: seq<Op>, n: nat, wire: map<Slot, int>, g: nat)
    requires g < |plan|
  {
    forall r: nat | r < n && r != plan[g].src :: WhollyRead(plan, wire, r, g)
  }

  ghost predicate Arrived(plan: seq<Op>, k: Rank, g: nat)
    requires g < |plan|
  {
    forall j: nat | j < |plan[g].bucket.data| :: Place(g, j) in k.written
  }

  /** When the broadcast of a rank is complete there: a source has been read, any other rank has all. */
  ghost predicate BroadcastDone(plan: seq<Op>, n: nat, wire: map<Slot, int>, r: nat, k: Rank)
    requires k.completed < |plan|
  {
    if plan[k.completed].src == r then ReadForAll(plan, n, wire, k.completed) else Arrived(plan, k, k.completed)
  }

  /** When rank `r` in state `k` can take a step of its own. */
  ghost predicate RankEnabled(plan: seq<Op>, n: nat, wire: map<Slot, int>, r: nat, k: Rank, e: Event) {
    && k.completed <= |plan|
    && match e
       case Launch(_) => k.launched == k.completed < |plan|
       case WriteByte(_, j) =>
         && UnderWay(k) && k.completed < |plan| && plan[k.completed].src != r && j < |plan[k.completed].bucket.data|
         && Place(k.completed, j) !in k.written && Slot(r, Place(k.completed, j)) in wire
         && j < |Half(k, k.completed)|
       case Emit(_) =>
         && (UnderWay(k) || k.completed == |plan|) && k.emitted < |ItemsBefore(plan, k.completed)|
         && var item := ItemsBefore(plan, k.completed)[k.emitted];
            item.offset + item.size <= |Half(k, k.completed - 1)|
       case Complete(_) =>
         && UnderWay(k) && k.completed < |plan| && k.emitted == |ItemsBefore(plan, k.completed)|
         && BroadcastDone(plan, n, wire, r, k)
       case ReadByte(_, _) => false
  }

  /** A byte can be read while the broadcast is under way at its source. */
  predicate ReadEnabled(plan: seq<Op>, w: World, r: nat, p: Place) {
    && r < |w.ranks| && p.g < |plan| && p.j < |plan[p.g].bucket.data| && Slot(r, p) !in w.wire
    && plan[p.g].src < |w.ranks| && plan[p.g].src != r
    && var k := w.ranks[plan[p.g].src]; UnderWay(k) && k.completed == p.g && p.j < |Half(k, p.g)|
  }

  ghost predicate Enabled(plan: seq<Op>, w: World, e: Event) {
    if e.ReadByte? then ReadEnabled(plan, w, e.r, e.p)
    else e.r < |w.ranks| && RankEnabled(plan, |w.ranks|, w.wire, e.r, w.ranks[e.r], e)
  }

  /** The rank that broadcasts writes its bucket before it launches the broadcast. */
  function Launched(plan: seq<Op>, r: nat, k: Rank): Rank
    requires k.launched < |plan|
  {
    var op := plan[k.launched];
    var loaded := if op.src == r && |op.bucket.data| <= |Half(k, k.launched)|
                  then Write(k, k.launched, op.bucket.data) else k;
    loaded.(launched := k.launched + 1)
  }

  function Emitted(plan: seq<Op>, k: Rank): Rank
    requires k.completed <= |plan| && k.emitted < |ItemsBefore(plan, k.completed)|
    requires var item := ItemsBefore(plan, k.completed)[k.emitted];
             item.offset + item.size <= |Half(k, k.completed - 1)|
  {
    var item := ItemsBefore(plan, k.completed)[k.emitted];
    k.(emitted := k.emitted + 1, out := k.out + [View(Half(k, k.completed - 1), item)])
  }

  function Stored(k: Rank, j: nat, x: int): Rank
    requires j < |Half(k, k.completed)|
  {
    var half := Half(k, k.completed)[j := x];
    var stored := if k.completed % 2 == 0 then k.(low := half) else k.(high := half);
    stored.(written := k.written + {Place(k.completed, j)})
  }

  ghost function RankStep(plan: seq<Op>, n: nat, wire: map<Slot, int>, r: nat, k: Rank, e: Event): Rank
    requires RankEnabled(plan, n, wire, r, k, e)
  {
    match e
    case Launch(_) => Launched(plan, r, k)
    case WriteByte(_, j) => Stored(k, j, wire[Slot(r, Place(k.completed, j))])
    case Emit(_) => Emitted(plan, k)
    case Complete(_) => k.(completed := k.completed + 1, emitted := 0)
  }

  ghost function After(plan: seq<Op>, w: World, e: Event): World
    requires Enabled(plan, w, e)
  {
    if e.ReadByte? then w.(wire := w.wire[Slot(e.r, e.p) := Half(w.ranks[plan[e.p.g].src], e.p.g)[e.p.j]])
    else w.(ranks := w.ranks[e.r := RankStep(plan, |w.ranks|, w.wire, e.r, w.ranks[e.r], e)])
  }

  predicate Initial(size: nat, n: nat, w: World) {
    && |w.ranks| == n && w.wire == map[]
    && forall r | 0 <= r < n ::
         && |w.ranks[r].low| == size && |w.ranks[r].high| == size
         && w.ranks[r] == Rank(w.ranks[r].low, w.ranks[r].high, 0, 0, {}, 0, [])
  }

  // ------------------------------------------------------------------ what each rank should hand out

  function ItemsOf(b: Bucket, n: nat): seq<Named>
    requires n <= |b.items|
    requires forall i | 0 <= i < |b.items| :: b.items[i].offset + b.items[i].size <= |b.data|
  {
    if n == 0 then [] else ItemsOf(b, n - 1) + [View(b.data, b.items[n - 1])]
  }

  /** All items of the first `n` broadcasts. */
  function ItemsUpTo(plan: seq<Op>, size: nat, ranks: nat, n: nat): seq<Named>
    requires GoodPlan(plan, size, ranks) && n <= |plan|
  {
    if n == 0 then []
    else ItemsUpTo(plan, size, ranks, n - 1) + ItemsOf(plan[n - 1].bucket, |plan[n - 1].bucket.items|)
  }

  /** What was handed out when `completed` broadcasts were completed and `emitted` items of the last
      one handed out. */
  function Due(plan: seq<Op>, size: nat, ranks: nat, completed: nat, emitted: nat): seq<Named>
    requires GoodPlan(plan, size, ranks) && completed <= |plan|
    requires emitted <= |ItemsBefore(plan, completed)|
  {
    if completed == 0 then []
    else ItemsUpTo(plan, size, ranks, completed - 1) + ItemsOf(plan[completed - 1].bucket, emitted)
  }

  // ------------------------------------------------------------------ invariant

  /** A half starts with the bucket of a broadcast. */
  predicate Holds(k: Rank, plan: seq<Op>, g: nat)
    requires g < |plan|
  {
    plan[g].bucket.data <= Half(k, g)
  }

  /** The half being received is right as far as bytes were written. */
  predicate HoldsWritten(k: Rank, plan: seq<Op>, g: nat)
    requires g < |plan|
  {
    && |plan[g].bucket.data| <= |Half(k, g)|
    && forall j: nat | j < |plan[g].bucket.data| && Place(g, j) in k.written :: Half(k, g)[j] == plan[g].bucket.data[j]
  }

  ghost predicate RankInv(plan: seq<Op>, size: nat, ranks: nat, r: nat, k: Rank)
    requires GoodPlan(plan, size, ranks)
  {
    && |k.low| == size && |k.high| == size
    && k.completed <= k.launched <= k.completed + 1 && k.launched <= |plan|
    && k.emitted <= |ItemsBefore(plan, k.completed)|
    && k.out == Due(plan, size, ranks, k.completed, k.emitted)
    && (k.completed > 0 ==> Holds(k, plan, k.completed - 1))
    && (UnderWay(k) ==> if plan[k.completed].src == r then Holds(k, plan, k.completed)
                        else HoldsWritten(k, plan, k.completed))
    && (forall p | p in k.written :: p.g < k.launched && p.j < |plan[p.g].bucket.data|)
  }

  ghost predicate OnWire(plan: seq<Op>, n: nat, s: Slot, x: int) {
    s.r < n && s.place.g < |plan| && s.place.j < |plan[s.place.g].bucket.data|
    && x == plan[s.place.g].bucket.data[s.place.j]
  }

  ghost predicate WireInv(plan: seq<Op>, n: nat, wire: map<Slot, int>) {
    forall s | s in wire :: OnWire(plan, n, s, wire[s])
  }

  /** What is complete at a rank was read before: for all others where it was the source, and else for
      it. */
  ghost predicate ReadBefore(plan: seq<Op>, n: nat, wire: map<Slot, int>, r: nat, k: Rank) {
    && k.completed <= |plan|
    && (forall p | p in k.written :: Slot(r, p) in wire)
    && (forall g: nat | g < k.completed ::
          if plan[g].src == r then ReadForAll(plan, n, wire, g) else WhollyRead(plan, wire, r, g))
  }

  ghost predicate RanksInv(plan: seq<Op>, size: nat, w: World)
    requires GoodPlan(plan, size, |w.ranks|)
  {
    forall r | 0 <= r < |w.ranks| :: RankInv(plan, size, |w.ranks|, r, w.ranks[r])
  }

  ghost predicate ReadsInv(plan: seq<Op>, w: World) {
    forall r | 0 <= r < |w.ranks| :: ReadBefore(plan, |w.ranks|, w.wire, r, w.ranks[r])
  }

  ghost predicate Inv(plan: seq<Op>, size: nat, w: World) {
    GoodPlan(plan, size, |w.ranks|) && WireInv(plan, |w.ranks|, w.wire) && RanksInv(plan, size, w) && ReadsInv(plan, w)
  }

  lemma {:induction false} InitialInv(plan: seq<Op>, size: nat, n: nat, w: World)
    requires GoodPlan(plan, size, n) && Initial(size, n, w)
    ensures Inv(plan, size, w)
  {
  }

  /** Writing one half keeps the other: the one whose views are being handed out. */
  lemma {:induction false} WriteKeeps(k: Rank, g: nat, data: seq<int>)
    requires |data| <= |Half(k, g)|
    ensures data <= Half(Write(k, g, data), g)
    ensures Half(Write(k, g, data), g + 1) == Half(k, g + 1)
    ensures g > 0 ==> Half(Write(k, g, data), g - 1) == Half(k, g - 1)
    ensures var k' := Write(k, g, data);
            |k'.low| == |k.low| && |k'.high| == |k.high| && k'.(low := k.low, high := k.high) == k
  {
  }

  lemma {:induction false} HalfLength(k: Rank, g: nat)
    ensures |Half(k, g)| == |k.low| || |Half(k, g)| == |k.high|
  {
  }

  lemma {:induction false} LaunchKeeps(plan: seq<Op>, size: nat, n: nat, r: nat, k: Rank)
    requires GoodPlan(plan, size, n) && RankInv(plan, size, n, r, k) && k.launched == k.completed < |plan|
    ensures RankInv(plan, size, n, r, Launched(plan, r, k))
  {
    HalfLength(k, k.launched);
    hide Due, Write;
    WriteKeeps(k, k.launched, plan[k.launched].bucket.data);
  }

  /** Writing one byte keeps the other half, and the bytes written before. */
  lemma {:induction false} StoreKeeps(k: Rank, j: nat, x: int)
    requires j < |Half(k, k.completed)|
    ensures var k' := Stored(k, j, x);
            && |k'.low| == |k.low| && |k'.high| == |k.high|
            && k'.(low := k.low, high := k.high, written := k.written) == k
            && k'.written == k.written + {Place(k.completed, j)}
            && Half(k', k.completed) == Half(k, k.completed)[j := x]
            && (k.completed > 0 ==> Half(k', k.completed - 1) == Half(k, k.completed - 1))
  {
  }

  lemma {:induction false} WriteByteKeeps(plan: seq<Op>, size: nat, n: nat, r: nat, k: Rank, j: nat)
    requires GoodPlan(plan, size, n) && RankInv(plan, size, n, r, k)
    requires UnderWay(k) && plan[k.completed].src != r && j < |plan[k.completed].bucket.data|
    requires j < |Half(k, k.completed)|
    ensures RankInv(plan, size, n, r, Stored(k, j, plan[k.completed].bucket.data[j]))
  {
    hide Due, Stored, Half, ItemsBefore;
    StoreKeeps(k, j, plan[k.completed].bucket.data[j]);
  }

  lemma {:induction false} EmitKeeps(plan: seq<Op>, size: nat, n: nat, r: nat, k: Rank)
    requires GoodPlan(plan, size, n) && RankInv(plan, size, n, r, k)
    requires k.completed <= |plan| && k.emitted < |ItemsBefore(plan, k.completed)|
    ensures var item := ItemsBefore(plan, k.completed)[k.emitted];
            item.offset + item.size <= |Half(k, k.completed - 1)|
    ensures RankInv(plan, size, n, r, Emitted(plan, k))
  {
    hide Due, Half;
    var b, item := plan[k.completed - 1].bucket, ItemsBefore(plan, k.completed)[k.emitted];
    assert Holds(k, plan, k.completed - 1);
    assert View(Half(k, k.completed - 1), item) == View(b.data, item);
    DueNext(plan, size, n, k.completed, k.emitted);
    SameHalves(k, Emitted(plan, k), k.completed);
    SameHalves(k, Emitted(plan, k), k.completed - 1);
  }

  lemma {:induction false} DueNext(plan: seq<Op>, size: nat, n: nat, completed: nat, emitted: nat)
    requires GoodPlan(plan, size, n) && completed <= |plan| && emitted < |ItemsBefore(plan, completed)|
    ensures completed > 0
    ensures var b := plan[completed - 1].bucket;
            Due(plan, size, n, completed, emitted + 1) ==
            Due(plan, size, n, completed, emitted) + [View(b.data, b.items[emitted])]
  {
  }

  lemma {:induction false} SameHalves(k: Rank, k': Rank, g: nat)
    requires k'.low == k.low && k'.high == k.high
    ensures Half(k', g) == Half(k, g)
  {
  }

  lemma {:induction false} CompleteKeeps(
    plan: seq<Op>, size: nat, n: nat, wire: map<Slot, int>, r: nat, k: Rank)
    requires GoodPlan(plan, size, n) && RankInv(plan, size, n, r, k)
    requires RankEnabled(plan, n, wire, r, k, Complete(r))
    ensures RankInv(plan, size, n, r, k.(completed := k.completed + 1, emitted := 0))
  {
    var k' := k.(completed := k.completed + 1, emitted := 0);
    assert k.out == ItemsUpTo(plan, size, n, k.completed);
    assert k'.out == Due(plan, size, n, k'.completed, 0);
    assert Holds(k, plan, k.completed) by {
      hide Due, ItemsUpTo, ReadForAll;
    }
  }

  lemma {:induction false} RankStepKeeps(
    plan: seq<Op>, size: nat, n: nat, wire: map<Slot, int>, r: nat, k: Rank, e: Event)
    requires GoodPlan(plan, size, n) && RankInv(plan, size, n, r, k) && WireInv(plan, n, wire)
    requires RankEnabled(plan, n, wire, r, k, e)
    ensures RankInv(plan, size, n, r, RankStep(plan, n, wire, r, k, e))
  {
    hide RankInv, GoodPlan, Launched, Stored, Emitted;
    match e
    case Launch(_) => LaunchKeeps(plan, size, n, r, k);
    case WriteByte(_, j) =>
      var s := Slot(r, Place(k.completed, j));
      assert OnWire(plan, n, s, wire[s]);
      WriteByteKeeps(plan, size, n, r, k, j);
    case Emit(_) => EmitKeeps(plan, size, n, r, k);
    case Complete(_) => CompleteKeeps(plan, size, n, wire, r, k);
  }

  lemma {:induction false} RankStepReads(
    plan: seq<Op>, n: nat, wire: map<Slot, int>, r: nat, k: Rank, e: Event)
    requires ReadBefore(plan, n, wire, r, k) && RankEnabled(plan, n, wire, r, k, e)
    ensures ReadBefore(plan, n, wire, r, RankStep(plan, n, wire, r, k, e))
  {
    hide ReadForAll, ItemsBefore;
  }

  lemma {:induction false} MoreIsRead(
    plan: seq<Op>, n: nat, wire: map<Slot, int>, wire': map<Slot, int>, r: nat, k: Rank)
    requires ReadBefore(plan, n, wire, r, k) && wire.Keys <= wire'.Keys
    ensures ReadBefore(plan, n, wire', r, k)
  {
    forall g: nat, r': nat | g < |plan| && WhollyRead(plan, wire, r', g) ensures WhollyRead(plan, wire', r', g) {
    }
  }

  /** Only the source writes the half that is being read, and it did so before the broadcast started. */
  lemma {:induction false} ReadIsExact(plan: seq<Op>, size: nat, w: World, r: nat, p: Place)
    requires Inv(plan, size, w) && ReadEnabled(plan, w, r, p)
    ensures Half(w.ranks[plan[p.g].src], p.g)[p.j] == plan[p.g].bucket.data[p.j]
  {
    var src := plan[p.g].src;
    assert RankInv(plan, size, |w.ranks|, src, w.ranks[src]);
  }

  lemma {:induction false} ReadKeeps(plan: seq<Op>, size: nat, w: World, r: nat, p: Place)
    requires Inv(plan, size, w) && Enabled(plan, w, ReadByte(r, p))
    ensures Inv(plan, size, After(plan, w, ReadByte(r, p)))
  {
    ReadIsExact(plan, size, w, r, p);
    hide RankInv, GoodPlan, ReadBefore, OnWire;
    var w', n := After(plan, w, ReadByte(r, p)), |w.ranks|;
    forall i | 0 <= i < n ensures ReadBefore(plan, n, w'.wire, i, w.ranks[i]) {
      MoreIsRead(plan, n, w.wire, w'.wire, i, w.ranks[i]);
    }
    OneMoreOnWire(plan, n, w.wire, Slot(r, p), w'.wire[Slot(r, p)]);
  }

  lemma {:induction false} OneMoreOnWire(plan: seq<Op>, n: nat, wire: map<Slot, int>, s: Slot, x: int)
    requires WireInv(plan, n, wire) && s.r < n && s.place.g < |plan| && s.place.j < |plan[s.place.g].bucket.data|
    requires x == plan[s.place.g].bucket.data[s.place.j]
    ensures WireInv(plan, n, wire[s := x])
  {
  }

  lemma {:induction false} StepKeeps(plan: seq<Op>, size: nat, w: World, e: Event)
    requires Inv(plan, size, w) && Enabled(plan, w, e)
    ensures Inv(plan, size, After(plan, w, e)) && |After(plan, w, e).ranks| == |w.ranks|
  {
    hide RankInv, GoodPlan, ReadBefore, WireInv, RankStep, RankEnabled;
    if e.ReadByte? {
      ReadKeeps(plan, size, w, e.r, e.p);
    } else {
      var n := |w.ranks|;
      RankStepKeeps(plan, size, n, w.wire, e.r, w.ranks[e.r], e);
      RankStepReads(plan, n, w.wire, e.r, w.ranks[e.r], e);
    }
  }

  // ------------------------------------------------------------------ runs

  ghost predicate IsRun(plan: seq<Op>, size: nat, n: nat, worlds: seq<World>, events: seq<Event>) {
    && |worlds| == |events| + 1 && Initial(size, n, worlds[0])
    && forall i {:trigger events[i]} | 0 <= i < |events| ::
         Enabled(plan, worlds[i], events[i]) && worlds[i + 1] == After(plan, worlds[i], events[i])
  }

  lemma {:induction false} RunKeeps(
    plan: seq<Op>, size: nat, n: nat, worlds: seq<World>, events: seq<Event>, m: nat)
    requires GoodPlan(plan, size, n) && IsRun(plan, size, n, worlds, events) && m <= |events|
    ensures Inv(plan, size, worlds[m]) && |worlds[m].ranks| == n
  {
    hide Inv, GoodPlan, Enabled, RankStep;
    if m == 0 {
      InitialInv(plan, size, n, worlds[0]);
    } else {
      RunKeeps(plan, size, n, worlds, events, m - 1);
      var e := events[m - 1];
      StepKeeps(plan, size, worlds[m - 1], e);
    }
  }

  predicate Finished(plan: seq<Op>, k: Rank) {
    k.completed == |plan| && k.emitted == |ItemsBefore(plan, k.completed)|
  }

  lemma {:induction false} DuePrefix(plan: seq<Op>, size: nat, n: nat, completed: nat, emitted: nat)
    requires GoodPlan(plan, size, n) && completed <= |plan| && emitted <= |ItemsBefore(plan, completed)|
    ensures Due(plan, size, n, completed, emitted) <= ItemsUpTo(plan, size, n, |plan|)
    ensures completed == |plan| && emitted == |ItemsBefore(plan, completed)| ==>
              Due(plan, size, n, completed, emitted) == ItemsUpTo(plan, size, n, |plan|)
  {
    if completed > 0 {
      ItemsOfPrefix(plan[completed - 1].bucket, emitted);
      UpToPrefix(plan, size, n, completed);
    }
  }

  lemma {:induction false} ItemsOfPrefix(b: Bucket, n: nat)
    requires n <= |b.items|
    requires forall i | 0 <= i < |b.items| :: b.items[i].offset + b.items[i].size <= |b.data|
    ensures ItemsOf(b, n) <= ItemsOf(b, |b.items|)
    decreases |b.items| - n
  {
    if n < |b.items| {
      ItemsOfPrefix(b, n + 1);
    }
  }

  lemma {:induction false} UpToPrefix(plan: seq<Op>, size: nat, n: nat, m: nat)
    requires GoodPlan(plan, size, n) && m <= |plan|
    ensures ItemsUpTo(plan, size, n, m) <= ItemsUpTo(plan, size, n, |plan|)
    decreases |plan| - m
  {
    if m < |plan| {
      UpToPrefix(plan, size, n, m + 1);
    }
  }

  /** In every run each rank hands out a prefix of all items of the schedule, with the bytes that their
      own ranks loaded, and a rank that finished has handed out all of them. */
  lemma {:induction false} EndToEnd(
    entries: seq<Entry>, size: nat, n: nat, worlds: seq<World>, events: seq<Event>, m: nat, r: nat)
    requires GoodPlan(Schedule(entries), size, n) && IsRun(Schedule(entries), size, n, worlds, events)
    requires m <= |events| && r < n
    ensures |worlds[m].ranks| == n
    ensures worlds[m].ranks[r].out <= ItemsUpTo(Schedule(entries), size, n, |Schedule(entries)|)
    ensures Finished(Schedule(entries), worlds[m].ranks[r]) ==>
              worlds[m].ranks[r].out == ItemsUpTo(Schedule(entries), size, n, |Schedule(entries)|)
  {
    var plan := Schedule(entries);
    RunKeeps(plan, size, n, worlds, events, m);
    var k := worlds[m].ranks[r];
    assert RankInv(plan, size, n, r, k);
    DuePrefix(plan, size, n, k.completed, k.emitted);
  }

  /** How many items the first `n` broadcasts have. */
  function ItemsIn(plan: seq<Op>, n: nat): nat
    requires n <= |plan|
  {
    if n == 0 then 0 else ItemsIn(plan, n - 1) + |plan[n - 1].bucket.items|
  }

  /** `x` is the item: its name, and byte by byte what lies at its place in the bucket. */
  predicate Shows(x: Named, b: Bucket, item: Item)
    requires item.offset + item.size <= |b.data|
  {
    && x.name == item.name && |x.data| == item.size
    && forall j | 0 <= j < item.size :: x.data[j] == b.data[item.offset + j]
  }

  lemma {:induction false} ItemsOfAt(b: Bucket, n: nat, i: nat)
    requires i < n <= |b.items|
    requires forall k | 0 <= k < |b.items| :: b.items[k].offset + b.items[k].size <= |b.data|
    ensures |ItemsOf(b, n)| == n && Shows(ItemsOf(b, n)[i], b, b.items[i])
  {
    ItemsOfLength(b, n - 1);
    if i < n - 1 {
      ItemsOfAt(b, n - 1, i);
    }
  }

  lemma {:induction false} ItemsOfLength(b: Bucket, n: nat)
    requires n <= |b.items|
    requires forall k | 0 <= k < |b.items| :: b.items[k].offset + b.items[k].size <= |b.data|
    ensures |ItemsOf(b, n)| == n
  {
    if n > 0 {
      ItemsOfLength(b, n - 1);
    }
  }

  lemma {:induction false} ItemsUpToLength(plan: seq<Op>, size: nat, ranks: nat, n: nat)
    requires GoodPlan(plan, size, ranks) && n <= |plan|
    ensures |ItemsUpTo(plan, size, ranks, n)| == ItemsIn(plan, n)
  {
    if n > 0 {
      ItemsUpToLength(plan, size, ranks, n - 1);
      ItemsOfLength(plan[n - 1].bucket, |plan[n - 1].bucket.items|);
    }
  }

  lemma {:induction false} ItemsUpToAt(plan: seq<Op>, size: nat, ranks: nat, n: nat, g: nat, i: nat)
    requires GoodPlan(plan, size, ranks) && g < n <= |plan| && i < |plan[g].bucket.items|
    ensures ItemsIn(plan, g) + i < ItemsIn(plan, n) == |ItemsUpTo(plan, size, ranks, n)|
    ensures Shows(ItemsUpTo(plan, size, ranks, n)[ItemsIn(plan, g) + i], plan[g].bucket, plan[g].bucket.items[i])
  {
    hide Shows;
    ItemsUpToLength(plan, size, ranks, n - 1);
    ItemsUpToLength(plan, size, ranks, n);
    if g < n - 1 {
      ItemsUpToAt(plan, size, ranks, n - 1, g, i);
    } else {
      ItemsOfAt(plan[g].bucket, |plan[g].bucket.items|, i);
    }
  }

  /** Item by item: in every run each rank hands out, in schedule order, the items of all buckets, each under
      its name with the bytes that lie at its place in the bucket that its own rank loaded. */
  lemma {:induction false} EveryItemIsShown(
    entries: seq<Entry>, size: nat, n: nat, worlds: seq<World>, events: seq<Event>, m: nat, r: nat, g: nat, i: nat)
    requires GoodPlan(Schedule(entries), size, n) && IsRun(Schedule(entries), size, n, worlds, events)
    requires m <= |events| && r < n
    requires g < |Schedule(entries)| && i < |Schedule(entries)[g].bucket.items|
    ensures |worlds[m].ranks| == n
    ensures var plan, k := Schedule(entries), worlds[m].ranks[r];
            && (ItemsIn(plan, g) + i < |k.out| ==>
                  Shows(k.out[ItemsIn(plan, g) + i], plan[g].bucket, plan[g].bucket.items[i]))
            && |k.out| <= ItemsIn(plan, |plan|)
            && (Finished(plan, k) ==> |k.out| == ItemsIn(plan, |plan|) > ItemsIn(plan, g) + i)
  {
    hide GoodPlan, IsRun, Shows, Schedule, ItemsUpTo;
    var plan := Schedule(entries);
    EndToEnd(entries, size, n, worlds, events, m, r);
    ItemsUpToAt(plan, size, n, |plan|, g, i);
  }

  // ------------------------------------------------------------------ progress

  /** A byte is read only when every rank has launched the broadcast, and for one where it is under way. */
  predicate Meets(w: World, e: Event) {
    e.ReadByte? ==>
      && e.r < |w.ranks| && UnderWay(w.ranks[e.r]) && w.ranks[e.r].completed == e.p.g
      && forall r | 0 <= r < |w.ranks| :: w.ranks[r].launched > e.p.g
  }

  /** What the ranks that have completed the fewest broadcasts can do on their own. */
  predicate Busy(plan: seq<Op>, k: Rank)
    requires k.completed < |plan|
  {
    k.launched == k.completed || k.emitted < |ItemsBefore(plan, k.completed)|
  }

  lemma {:induction false} BusyMoves(plan: seq<Op>, size: nat, w: World, r: nat) returns (e: Event)
    requires Inv(plan, size, w) && r < |w.ranks| && w.ranks[r].completed < |plan| && Busy(plan, w.ranks[r])
    ensures Enabled(plan, w, e) && !e.ReadByte?
  {
    hide Due;
    var k := w.ranks[r];
    assert RankInv(plan, size, |w.ranks|, r, k);
    if k.launched == k.completed {
      return Launch(r);
    }
    EmitKeeps(plan, size, |w.ranks|, r, k);
    e := Emit(r);
  }

  /** A rank at the end hands out what it still has. */
  lemma {:induction false} LastMoves(plan: seq<Op>, size: nat, w: World, r: nat) returns (e: Event)
    requires Inv(plan, size, w) && r < |w.ranks| && w.ranks[r].completed == |plan| && !Finished(plan, w.ranks[r])
    ensures Enabled(plan, w, e) && !e.ReadByte?
  {
    hide Due;
    var k := w.ranks[r];
    assert RankInv(plan, size, |w.ranks|, r, k);
    EmitKeeps(plan, size, |w.ranks|, r, k);
    e := Emit(r);
  }

  /** The broadcast that all ranks have launched and some have not completed goes on. */
  lemma {:induction false} SourceMoves(plan: seq<Op>, size: nat, w: World, g: nat) returns (e: Event)
    requires Inv(plan, size, w) && g < |plan|
    requires forall r | 0 <= r < |w.ranks| :: w.ranks[r].completed >= g && w.ranks[r].launched > g
    requires w.ranks[plan[g].src].completed == g && !Busy(plan, w.ranks[plan[g].src])
    ensures Enabled(plan, w, e) && Meets(w, e)
  {
    hide Due;
    var src := plan[g].src;
    var k := w.ranks[src];
    assert RankInv(plan, size, |w.ranks|, src, k);
    if r: nat, j: nat :|
        r < |w.ranks| && r != src && j < |plan[g].bucket.data| && Slot(r, Place(g, j)) !in w.wire {
      MissingIsUnderWay(plan, size, w, g, r, j);
      e := ReadByte(r, Place(g, j));
    } else {
      assert ReadForAll(plan, |w.ranks|, w.wire, g) by {
        forall r: nat | r < |w.ranks| && r != src ensures WhollyRead(plan, w.wire, r, g) {
        }
      }
      e := Complete(src);
    }
  }

  lemma {:induction false} MissingIsUnderWay(plan: seq<Op>, size: nat, w: World, g: nat, r: nat, j: nat)
    requires Inv(plan, size, w) && g < |plan| && r < |w.ranks| && r != plan[g].src
    requires w.ranks[r].completed >= g && w.ranks[r].launched > g
    requires j < |plan[g].bucket.data| && Slot(r, Place(g, j)) !in w.wire
    ensures w.ranks[r].completed == g && UnderWay(w.ranks[r])
  {
    hide Due;
    assert RankInv(plan, size, |w.ranks|, r, w.ranks[r]);
    assert ReadBefore(plan, |w.ranks|, w.wire, r, w.ranks[r]);
    assert w.ranks[r].completed > g ==> WhollyRead(plan, w.wire, r, g);
  }

  /** Once the source has completed a broadcast, a rank that has not can write or complete it. */
  lemma {:induction false} ReceiverMoves(plan: seq<Op>, size: nat, w: World, g: nat, r: nat) returns (e: Event)
    requires Inv(plan, size, w) && g < |plan| && r < |w.ranks|
    requires w.ranks[r].completed == g && !Busy(plan, w.ranks[r])
    requires plan[g].src < |w.ranks| && w.ranks[plan[g].src].completed > g
    ensures Enabled(plan, w, e) && !e.ReadByte?
  {
    hide Due;
    var k, src := w.ranks[r], plan[g].src;
    assert RankInv(plan, size, |w.ranks|, r, k);
    assert ReadBefore(plan, |w.ranks|, w.wire, src, w.ranks[src]);
    assert ReadForAll(plan, |w.ranks|, w.wire, g);
    assert WhollyRead(plan, w.wire, r, g);
    if j: nat :| j < |plan[g].bucket.data| && Place(g, j) !in k.written {
      e := WriteByte(r, j);
    } else {
      e := Complete(r);
    }
  }

  /** A rank that has completed the fewest broadcasts. */
  lemma {:induction false} Slowest(ranks: seq<Rank>) returns (r: nat)
    requires ranks != []
    ensures r < |ranks| && forall i | 0 <= i < |ranks| :: ranks[r].completed <= ranks[i].completed
  {
    if |ranks| == 1 {
      return 0;
    }
    r := Slowest(ranks[..|ranks| - 1]);
    if ranks[|ranks| - 1].completed < ranks[r].completed {
      r := |ranks| - 1;
    }
  }

  /** Someone can move unless all are finished. */
  lemma {:induction false} SomeoneMoves(plan: seq<Op>, size: nat, w: World, r: nat) returns (e: Event)
    requires Inv(plan, size, w) && r < |w.ranks| && !Finished(plan, w.ranks[r])
    ensures Enabled(plan, w, e) && Meets(w, e)
  {
    hide RankInv, WireInv, ReadsInv, Enabled, Finished;
    var slow := Slowest(w.ranks);
    var g := w.ranks[slow].completed;
    CountsAre(plan, size, w);
    if g == |plan| {
      e := LastMoves(plan, size, w, r);
    } else if b :| 0 <= b < |w.ranks| && w.ranks[b].completed == g && Busy(plan, w.ranks[b]) {
      e := BusyMoves(plan, size, w, b);
    } else {
      assert plan[g].src < |w.ranks|;
      if w.ranks[plan[g].src].completed == g {
        e := SourceMoves(plan, size, w, g);
      } else {
        e := ReceiverMoves(plan, size, w, g, slow);
      }
    }
  }

  lemma {:induction false} CountsAre(plan: seq<Op>, size: nat, w: World)
    requires Inv(plan, size, w)
    ensures forall r | 0 <= r < |w.ranks| ::
              w.ranks[r].completed <= w.ranks[r].launched <= w.ranks[r].completed + 1 && w.ranks[r].completed <= |plan|
  {
    hide Due, Holds, HoldsWritten;
    forall r | 0 <= r < |w.ranks|
      ensures w.ranks[r].completed <= w.ranks[r].launched <= w.ranks[r].completed + 1
      ensures w.ranks[r].completed <= |plan|
    {
      assert RankInv(plan, size, |w.ranks|, r, w.ranks[r]);
    }
  }

  /** No reachable state is stuck: unless every rank is finished, some step is possible, even if no byte
      is read before all ranks have launched the broadcast. */
  lemma {:induction false} NoDeadlock(
    plan: seq<Op>, size: nat, n: nat, worlds: seq<World>, events: seq<Event>, m: nat, r: nat)
    returns (e: Event)
    requires GoodPlan(plan, size, n) && IsRun(plan, size, n, worlds, events) && m <= |events|
    requires r < |worlds[m].ranks| && !Finished(plan, worlds[m].ranks[r])
    ensures Enabled(plan, worlds[m], e) && Meets(worlds[m], e)
  {
    hide GoodPlan, Inv;
    RunKeeps(plan, size, n, worlds, events, m);
    e := SomeoneMoves(plan, size, worlds[m], r);
  }

  // ------------------------------------------------------------------ termination

  /** How many steps a rank has taken. */
  function Taken(k: Rank): nat {
    k.launched + k.completed + |k.written| + |k.out|
  }

  function TakenByAll(ranks: seq<Rank>): nat {
    if ranks == [] then 0 else Taken(ranks[0]) + TakenByAll(ranks[1..])
  }

  lemma {:induction false} TakenUpdate(ranks: seq<Rank>, r: nat, k: Rank)
    requires r < |ranks|
    ensures TakenByAll(ranks[r := k]) == TakenByAll(ranks) - Taken(ranks[r]) + Taken(k)
  {
    if r == 0 {
      assert ranks[r := k][1..] == ranks[1..];
    } else {
      TakenUpdate(ranks[1..], r - 1, k);
      assert ranks[r := k][1..] == ranks[1..][r - 1 := k];
    }
  }

  lemma {:induction false} TakenAtMost(ranks: seq<Rank>, most: nat)
    requires forall r | 0 <= r < |ranks| :: Taken(ranks[r]) <= most
    ensures TakenByAll(ranks) <= Arith.Rows(|ranks|, most)
  {
    if ranks != [] {
      TakenAtMost(ranks[1..], most);
    }
  }

  function Steps(w: World): nat {
    TakenByAll(w.ranks) + |w.wire|
  }

  /** Each step is counted. */
  lemma {:induction false} StepCounts(plan: seq<Op>, w: World, e: Event)
    requires Enabled(plan, w, e)
    ensures Steps(After(plan, w, e)) == Steps(w) + 1
  {
    if e.ReadByte? {
      var w' := After(plan, w, e);
      assert w'.wire.Keys == w.wire.Keys + {Slot(e.r, e.p)};
      assert |w'.wire.Keys| == |w.wire.Keys| + 1;
    } else {
      var k' := RankStep(plan, |w.ranks|, w.wire, e.r, w.ranks[e.r], e);
      TakenUpdate(w.ranks, e.r, k');
      RankStepCounts(plan, |w.ranks|, w.wire, e.r, w.ranks[e.r], e);
    }
  }

  lemma {:induction false} RankStepCounts(
    plan: seq<Op>, n: nat, wire: map<Slot, int>, r: nat, k: Rank, e: Event)
    requires RankEnabled(plan, n, wire, r, k, e)
    ensures Taken(RankStep(plan, n, wire, r, k, e)) == Taken(k) + 1
  {
    hide BroadcastDone, Half, ItemsBefore;
  }

  /** All bytes of all broadcasts. */
  function Places(plan: seq<Op>, size: nat): set<Place> {
    set g, j | g in Counting.Range(|plan|) && j in Counting.Range(size) :: Place(g, j)
  }

  function Slots(plan: seq<Op>, size: nat, n: nat): set<Slot> {
    set r, p | r in Counting.Range(n) && p in Places(plan, size) :: Slot(r, p)
  }

  /** All that can ever be done. */
  function Most(plan: seq<Op>, size: nat, n: nat): nat
    requires GoodPlan(plan, size, n)
  {
    Arith.Rows(n, 2 * |plan| + |Places(plan, size)| + |ItemsUpTo(plan, size, n, |plan|)|) + |Slots(plan, size, n)|
  }

  lemma {:induction false} InPlaces(plan: seq<Op>, size: nat, n: nat, p: Place)
    requires GoodPlan(plan, size, n) && p.g < |plan| && p.j < |plan[p.g].bucket.data|
    ensures p in Places(plan, size)
  {
    assert p == Place(p.g, p.j) && p.g in Counting.Range(|plan|) && p.j in Counting.Range(size);
  }

  lemma {:induction false} WrittenNeverMore(plan: seq<Op>, size: nat, n: nat, r: nat, k: Rank)
    requires GoodPlan(plan, size, n) && RankInv(plan, size, n, r, k)
    ensures |k.written| <= |Places(plan, size)|
  {
    hide Due, Holds, HoldsWritten, Places;
    forall p | p in k.written ensures p in Places(plan, size) {
      InPlaces(plan, size, n, p);
    }
    Counting.SubsetSize(k.written, Places(plan, size));
  }

  lemma {:induction false} RankNeverMore(plan: seq<Op>, size: nat, n: nat, r: nat, k: Rank)
    requires GoodPlan(plan, size, n) && RankInv(plan, size, n, r, k)
    ensures Taken(k) <= 2 * |plan| + |Places(plan, size)| + |ItemsUpTo(plan, size, n, |plan|)|
  {
    WrittenNeverMore(plan, size, n, r, k);
    hide Due, ItemsUpTo, Holds, HoldsWritten, GoodPlan, Places;
    DuePrefix(plan, size, n, k.completed, k.emitted);
  }

  lemma {:induction false} WireNeverMore(plan: seq<Op>, size: nat, n: nat, wire: map<Slot, int>)
    requires GoodPlan(plan, size, n) && WireInv(plan, n, wire)
    ensures |wire| <= |Slots(plan, size, n)|
  {
    hide Places;
    forall s | s in wire.Keys ensures s in Slots(plan, size, n) {
      assert OnWire(plan, n, s, wire[s]);
      InPlaces(plan, size, n, s.place);
      assert s == Slot(s.r, s.place) && s.r in Counting.Range(n);
    }
    Counting.SubsetSize(wire.Keys, Slots(plan, size, n));
  }

  lemma {:induction false} NeverMore(plan: seq<Op>, size: nat, w: World)
    requires Inv(plan, size, w)
    ensures Steps(w) <= Most(plan, size, |w.ranks|)
  {
    hide RankInv, GoodPlan, ItemsUpTo, Taken, WireInv, Places, Slots;
    var n := |w.ranks|;
    var most := 2 * |plan| + |Places(plan, size)| + |ItemsUpTo(plan, size, n, |plan|)|;
    forall r | 0 <= r < n ensures Taken(w.ranks[r]) <= most {
      RankNeverMore(plan, size, n, r, w.ranks[r]);
    }
    TakenAtMost(w.ranks, most);
    WireNeverMore(plan, size, n, w.wire);
  }

  lemma {:induction false} StepsAtStart(size: nat, n: nat, w: World)
    requires Initial(size, n, w)
    ensures Steps(w) == 0
  {
    TakenAtMost(w.ranks, 0);
    Arith.RowsIs(n, 0);
  }

  /** The steps of a run are counted, and there are no more of them than there is to do. */
  lemma {:induction false} RunsAreFinite(
    plan: seq<Op>, size: nat, n: nat, worlds: seq<World>, events: seq<Event>, m: nat)
    requires GoodPlan(plan, size, n) && IsRun(plan, size, n, worlds, events) && m <= |events|
    ensures m == Steps(worlds[m])
    ensures m <= Most(plan, size, n)
  {
    hide GoodPlan, Inv, Steps, Most, Initial, Enabled, RankStep;
    RunKeeps(plan, size, n, worlds, events, m);
    NeverMore(plan, size, worlds[m]);
    if m == 0 {
      StepsAtStart(size, n, worlds[0]);
    } else {
      RunsAreFinite(plan, size, n, worlds, events, m - 1);
      var e := events[m - 1];
      StepCounts(plan, worlds[m - 1], e);
    }
  }
}
