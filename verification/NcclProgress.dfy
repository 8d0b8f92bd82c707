/** Progress of the NCCL broadcast: every run is finite, and a run that cannot go on has finished at
    every rank. This holds even of a transport that buffers nothing: one that reads no byte of a
    broadcast before every receiver has begun it, and reads for a receiver only while it is receiving. */
module NcclProgress {
  import opened Options
  import opened Weights
  import opened Packing
  import opened PackingLaws
  import opened Sending
  import opened SendNames
  import opened Counting
  import opened Nccl

  // ------------------------------------------------------------------ every step does work

  /** Every byte of every broadcast, once for each receiver. */
  function AllSlots(receivers: nat, n: nat, b: nat): set<Slot> {
    set r, k, j | r in Range(receivers) && k in Range(n) && j in Range(b) :: Slot(r, k, j)
  }

  function SenderWork(c: Config, s: State): int {
    var n := |Buckets(c.cs, c.b)|;
    (|c.cs| - s.packer.next) + 2 * (n - |s.packer.log|) + (if s.busy then 1 else 0) + (n - s.published)
    + (|AllSlots(c.receivers, n, c.b)| - |s.wire|) + (if s.senderDone then 0 else 1)
  }

  /** What a receiver has still to do before it completes the next broadcast. */
  function RoundWork(v: Receiver, b: nat): int {
    (if !Receiving(v) then b + 2 else if v.opMeta == None then b + 1 else b - |v.written|)
    + (if v.finished == 0 then 0 else |v.meta.entries| - v.pos) + (if v.done then 0 else 1)
  }

  function ReceiverWork(v: Receiver, n: nat, b: nat): int {
    (n - v.finished) * (2 * b + 4) + RoundWork(v, b)
  }

  function ReceiversWork(vs: seq<Receiver>, n: nat, b: nat): int {
    if vs == [] then 0 else ReceiverWork(vs[0], n, b) + ReceiversWork(vs[1..], n, b)
  }

  function Work(c: Config, s: State): int {
    SenderWork(c, s) + ReceiversWork(s.rs, |Buckets(c.cs, c.b)|, c.b)
  }

  lemma {:induction false} CompleteWorks(c: Config, log: seq<Parcel>, v: Receiver, n: nat)
    requires ReceiverInv(c, log, v) && Receiving(v) && v.opMeta.Some? && |log| <= n
    requires v.finished == 0 || v.pos == |v.meta.entries|
    requires |v.opMeta.value.entries| <= c.b
    ensures ReceiverWork(CompleteOp(v), n, c.b) < ReceiverWork(v, n, c.b)
  {
    hide Arrived, Yielded;
    LessRound(n, v.finished, 2 * c.b + 4);
    WrittenFits(c, log, v);
  }

  lemma {:induction false} ReceiverStepWorks(c: Config, s: State, v: Receiver, step: Step, n: nat)
    requires ReceiverInv(c, s.packer.log, v) && Actor(step).Some? && ReceiverEnabled(c, s, v, step)
    requires s.published <= |s.packer.log| <= n
    requires forall k | 0 <= k < |s.packer.log| :: |s.packer.log[k].entries| <= c.b
    ensures ReceiverWork(ReceiverStep(c, s, v, step), n, c.b) < ReceiverWork(v, n, c.b)
  {
    hide Arrived, Yielded, MetaOf;
    match step {
      case CompleteReceive(_) =>
        EntriesFit(c, s.packer.log, v);
        CompleteWorks(c, s.packer.log, v, n);
      case _ =>
    }
  }

  lemma {:induction false} EntriesFit(c: Config, log: seq<Parcel>, v: Receiver)
    requires ReceiverInv(c, log, v) && Receiving(v) && v.opMeta.Some?
    requires forall k | 0 <= k < |log| :: |log[k].entries| <= c.b
    ensures |v.opMeta.value.entries| <= c.b
  {
    hide Arrived, Yielded;
  }

  lemma {:induction false} WrittenFits(c: Config, log: seq<Parcel>, v: Receiver)
    requires ReceiverInv(c, log, v) && Receiving(v)
    ensures |v.written| <= c.b
  {
    forall j | j in v.written ensures j < c.b {
      assert v.opMeta.Some?;
    }
    SubsetCard(c.b, v.written);
  }

  lemma {:induction false} UpdateWork(vs: seq<Receiver>, i: nat, v: Receiver, n: nat, b: nat)
    requires i < |vs|
    ensures ReceiversWork(vs[i := v], n, b) ==
            ReceiversWork(vs, n, b) - ReceiverWork(vs[i], n, b) + ReceiverWork(v, n, b)
  {
    if i == 0 {
      assert vs[i := v][1..] == vs[1..];
    } else {
      UpdateWork(vs[1..], i - 1, v, n, b);
      assert vs[i := v][1..] == vs[1..][i - 1 := v];
    }
  }

  lemma {:induction false} OneByteMore(wire: map<Slot, Byte>, k: Slot, x: Byte)
    requires k !in wire
    ensures |wire[k := x]| == |wire| + 1
  {
    assert wire[k := x].Keys == wire.Keys + {k};
  }

  lemma {:induction false} SenderStepWorks(c: Config, s: State, step: Step)
    requires ShapedState(c, s) && Actor(step) == None && SenderEnabled(c, s, step)
    ensures SenderWork(c, SenderStep(c, s, step)) < SenderWork(c, s)
    ensures SenderStep(c, s, step).rs == s.rs
  {
    hide AllSlots, Buckets, Written, Place;
    match step {
      case ReadByte(r, j) =>
        OneByteMore(s.wire, Slot(r, |s.packer.log| - 1, j), s.packer.bufs[Outstanding(s.packer)][j]);
      case _ =>
    }
  }

  lemma {:induction false} StepWorks(c: Config, s: State, step: Step)
    requires Inv(c, s) && Enabled(c, s, step)
    ensures Work(c, Apply(c, s, step)) < Work(c, s)
  {
    hide SenderWork, ReceiverWork, ReceiverInv, SendInv;
    var n := |Buckets(c.cs, c.b)|;
    if Actor(step).Some? {
      var r := Actor(step).value;
      LogPrefix(s.packer, c.cs, c.b);
      forall k | 0 <= k < |s.packer.log| ensures |s.packer.log[k].entries| <= c.b {
        FewEntries(s.packer, c.cs, c.b, k);
      }
      ReceiverStepWorks(c, s, s.rs[r], step, n);
      UpdateWork(s.rs, r, ReceiverStep(c, s, s.rs[r], step), n, c.b);
      SameSender(c, s, Apply(c, s, step));
    } else {
      SenderStepWorks(c, s, step);
    }
  }

  lemma {:induction false} SameSender(c: Config, s: State, s': State)
    requires s'.(rs := s.rs) == s
    ensures SenderWork(c, s') == SenderWork(c, s)
  {
  }

  lemma {:induction false} ReceiverWorkNonNegative(c: Config, log: seq<Parcel>, v: Receiver, n: nat)
    requires ReceiverInv(c, log, v) && |log| <= n
    ensures ReceiverWork(v, n, c.b) >= 0
  {
    if Receiving(v) {
      WrittenFits(c, log, v);
    }
    NonNegativeProduct(n - v.finished, 2 * c.b + 4);
  }

  lemma {:induction false} ReceiversWorkNonNegative(vs: seq<Receiver>, n: nat, b: nat)
    requires forall i | 0 <= i < |vs| :: ReceiverWork(vs[i], n, b) >= 0
    ensures ReceiversWork(vs, n, b) >= 0
  {
    if vs != [] {
      ReceiversWorkNonNegative(vs[1..], n, b);
    }
  }

  lemma {:induction false} WireFits(c: Config, s: State, n: nat)
    requires WireInv(c, s.packer.log, s.wire) && Sized(s.packer.log, c.b) && |s.packer.log| <= n
    ensures |s.wire| <= |AllSlots(c.receivers, n, c.b)|
  {
    forall k | k in s.wire.Keys ensures k in AllSlots(c.receivers, n, c.b) {
      assert OnWire(c, s.packer.log, k, s.wire[k]);
      assert k == Slot(k.r, k.k, k.j) && k.r in Range(c.receivers) && k.k in Range(n) && k.j in Range(c.b);
    }
    SubsetSize(s.wire.Keys, AllSlots(c.receivers, n, c.b));
  }

  lemma {:induction false} WorkNonNegative(c: Config, s: State)
    requires Inv(c, s)
    ensures Work(c, s) >= 0
  {
    hide ReceiverWork, ReceiverInv, AllSlots;
    var n := |Buckets(c.cs, c.b)|;
    LogPrefix(s.packer, c.cs, c.b);
    forall r | 0 <= r < |s.rs| ensures ReceiverWork(s.rs[r], n, c.b) >= 0 {
      ReceiverWorkNonNegative(c, s.packer.log, s.rs[r], n);
    }
    ReceiversWorkNonNegative(s.rs, n, c.b);
    WireFits(c, s, n);
  }

  /** No run is longer than the work at its start. */
  lemma {:induction false} RunsAreFinite(c: Config, s: State, steps: seq<Step>, s': State)
    requires Inv(c, s) && Run(c, s, steps, s')
    ensures |steps| <= Work(c, s)
    decreases |steps|
  {
    hide Work, SendInv, WireInv, ReceiverInv;
    if steps == [] {
      WorkNonNegative(c, s);
    } else {
      StepWorks(c, s, steps[0]);
      StepKeepsInv(c, s, steps[0]);
      RunsAreFinite(c, Apply(c, s, steps[0]), steps[1..], s');
    }
  }

  // ------------------------------------------------------------------ no deadlock

  /** Everything that was broadcast before the one in flight was read for every receiver. */
  ghost predicate WireFull(c: Config, s: State) {
    forall r: nat, k: nat, j: nat | r < c.receivers && j < c.b && k < |s.packer.log| ::
      (k + 1 < |s.packer.log| || !s.busy) ==> Slot(r, k, j) in s.wire
  }

  lemma {:induction false} StepKeepsFull(c: Config, s: State, step: Step)
    requires Inv(c, s) && WireFull(c, s) && Enabled(c, s, step)
    ensures WireFull(c, Apply(c, s, step))
  {
    hide SendInv, WireInv, ReceiverInv;
    var s' := Apply(c, s, step);
    forall r: nat, k: nat, j: nat | r < c.receivers && j < c.b && k < |s'.packer.log|
                                    && (k + 1 < |s'.packer.log| || !s'.busy)
      ensures Slot(r, k, j) in s'.wire
    {
      if step.AwaitBroadcast? && k + 1 == |s.packer.log| {
        assert IsRead(s, r, j);
      }
    }
  }

  lemma {:induction false} RunKeepsFull(c: Config, s: State, steps: seq<Step>, s': State)
    requires Inv(c, s) && WireFull(c, s) && Run(c, s, steps, s')
    ensures Inv(c, s') && WireFull(c, s')
    decreases |steps|
  {
    hide WireFull, SendInv, WireInv, ReceiverInv;
    if steps != [] {
      StepKeepsInv(c, s, steps[0]);
      StepKeepsFull(c, s, steps[0]);
      RunKeepsFull(c, Apply(c, s, steps[0]), steps[1..], s');
    }
  }

  /** Broadcast `k` was read for receiver `r`. */
  ghost predicate WhollyRead(b: nat, wire: map<Slot, Byte>, r: nat, k: nat) {
    forall j: nat | j < b :: Slot(r, k, j) in wire
  }

  /** A receiver wrote only what had been read for it. */
  ghost predicate ReadBefore(b: nat, wire: map<Slot, Byte>, r: nat, v: Receiver) {
    && (forall k: nat | k < v.finished :: WhollyRead(b, wire, r, k))
    && (forall j: nat | j in v.written :: v.started > 0 && Slot(r, v.started - 1, j) in wire)
  }

  ghost predicate AllReadBefore(c: Config, s: State) {
    forall r: nat | r < |s.rs| :: ReadBefore(c.b, s.wire, r, s.rs[r])
  }

  lemma {:induction false} ReceiverReadBefore(c: Config, s: State, r: nat, v: Receiver, step: Step)
    requires ReceiverInv(c, s.packer.log, v) && s.published <= |s.packer.log|
    requires Actor(step) == Some(r) && ReceiverEnabled(c, s, v, step)
    requires ReadBefore(c.b, s.wire, r, v)
    ensures ReadBefore(c.b, s.wire, r, ReceiverStep(c, s, v, step))
  {
    hide Arrived, Yielded, MetaOf;
    var v' := ReceiverStep(c, s, v, step);
    if step.CompleteReceive? {
      var k: nat := v.started - 1;
      forall j: nat | j < c.b ensures Slot(r, k, j) in s.wire {
        assert j in v.written;
      }
      assert WhollyRead(c.b, s.wire, r, k);
      assert v'.finished == v.finished + 1;
    }
  }

  lemma {:induction false} MoreIsRead(b: nat, wire: map<Slot, Byte>, wire': map<Slot, Byte>, r: nat, v: Receiver)
    requires ReadBefore(b, wire, r, v) && wire.Keys <= wire'.Keys
    ensures ReadBefore(b, wire', r, v)
  {
    forall k: nat | k < v.finished ensures WhollyRead(b, wire', r, k) {
      assert WhollyRead(b, wire, r, k);
    }
  }

  lemma {:induction false} StepReadBefore(c: Config, s: State, step: Step)
    requires Inv(c, s) && AllReadBefore(c, s) && Enabled(c, s, step)
    ensures AllReadBefore(c, Apply(c, s, step))
  {
    hide SendInv, WireInv, ReceiverInv, ReadBefore, ReceiverEnabled, ReceiverStep;
    var s' := Apply(c, s, step);
    forall r: nat | r < |s'.rs| ensures ReadBefore(c.b, s'.wire, r, s'.rs[r]) {
      if Actor(step) == Some(r) {
        ReceiverReadBefore(c, s, r, s.rs[r], step);
      } else {
        MoreIsRead(c.b, s.wire, s'.wire, r, s.rs[r]);
      }
    }
  }

  lemma {:induction false} StartReadBefore(c: Config, s: State)
    requires Init(c, s)
    ensures AllReadBefore(c, s)
  {
    forall r: nat | r < |s.rs| ensures ReadBefore(c.b, s.wire, r, s.rs[r]) {
      assert InitReceiver(s.rs[r]);
    }
  }

  lemma {:induction false} RunReadBefore(c: Config, s: State, steps: seq<Step>, s': State)
    requires Inv(c, s) && AllReadBefore(c, s) && Run(c, s, steps, s')
    ensures AllReadBefore(c, s')
    decreases |steps|
  {
    hide AllReadBefore, SendInv, WireInv, ReceiverInv;
    if steps != [] {
      StepKeepsInv(c, s, steps[0]);
      StepReadBefore(c, s, steps[0]);
      RunReadBefore(c, Apply(c, s, steps[0]), steps[1..], s');
    }
  }

  predicate Finished(s: State) {
    s.senderDone && forall r | 0 <= r < |s.rs| :: s.rs[r].done
  }

  /** A byte is read only when every receiver has begun the broadcast, and for one that is receiving. */
  predicate Meets(s: State, step: Step) {
    step.ReadByte? ==>
      && step.r < |s.rs| && Receiving(s.rs[step.r]) && s.rs[step.r].started == |s.packer.log|
      && forall r | 0 <= r < |s.rs| :: s.rs[r].started >= |s.packer.log|
  }

  /** A run of a transport that buffers nothing. */
  ghost predicate MeetingRun(c: Config, s: State, steps: seq<Step>, s': State)
    requires ShapedState(c, s)
    decreases |steps|
  {
    if steps == [] then s' == s else
    && Enabled(c, s, steps[0]) && Meets(s, steps[0])
    && ShapedState(c, Apply(c, s, steps[0])) && MeetingRun(c, Apply(c, s, steps[0]), steps[1..], s')
  }

  /** Such a run is a run, so that all that is proved of runs holds of it. */
  lemma {:induction false} MeetingRunIsRun(c: Config, s: State, steps: seq<Step>, s': State)
    requires ShapedState(c, s) && MeetingRun(c, s, steps, s')
    ensures Run(c, s, steps, s')
    decreases |steps|
  {
    hide ShapedState, Enabled;
    if steps != [] {
      MeetingRunIsRun(c, Apply(c, s, steps[0]), steps[1..], s');
    }
  }

  /** What the sender does next; it waits for nothing but the bytes of its broadcast. */
  lemma {:induction false} SenderGoesOn(c: Config, s: State) returns (step: Step)
    requires Inv(c, s) && !s.senderDone && AllNamesDiffer(Buckets(c.cs, c.b))
    ensures Actor(step) == None && SenderEnabled(c, s, step)
  {
    hide SendInv, WireInv, ReceiverInv, AllNamesDiffer, Fresh;
    var p := s.packer;
    if CanFill(p, c.cs, c.b) && !LastSent(p) {
      FreshInMemory(p, c.cs, c.b);
      return PlaceChunk;
    }
    SenderPlace(s, c);
    if !s.busy {
      return if LastSent(p) then SenderReturns else if AtEnd(p, c.cs) then FinishBucket else FlushBucket;
    }
    if s.published < |p.log| {
      return Publish;
    }
    if AllRead(c, s) {
      return AwaitBroadcast;
    }
    var r: nat, j: nat :| r < c.receivers && j < c.b && !IsRead(s, r, j);
    step := ReadByte(r, j);
  }

  lemma {:induction false} SenderPlace(s: State, c: Config)
    requires SendInv(s.packer, c.cs, c.b)
    ensures CanFill(s.packer, c.cs, c.b) || AtFlush(s.packer, c.cs, c.b) || AtEnd(s.packer, c.cs) || LastSent(s.packer)
    ensures LastSent(s.packer) || s.packer.next == |c.cs| || s.packer.next < |c.cs|
  {
  }

  /** The broadcast that a receiver is receiving was read for it. */
  ghost predicate Served(c: Config, s: State, r: nat, v: Receiver) {
    Receiving(v) ==>
      v.started <= s.published && v.started <= |s.packer.log| && WhollyRead(c.b, s.wire, r, v.started - 1)
  }

  lemma {:induction false} ServedGoesOn(c: Config, s: State, r: nat) returns (step: Step)
    requires r < |s.rs| && ReceiverInv(c, s.packer.log, s.rs[r]) && Served(c, s, r, s.rs[r]) && !s.rs[r].done
    ensures Actor(step) == Some(r) && ReceiverEnabled(c, s, s.rs[r], step)
  {
    hide Arrived, Yielded;
    var v := s.rs[r];
    if !Receiving(v) {
      if v.finished == 0 || !v.meta.isLast {
        return StartReceive(r);
      }
      return if v.pos < |v.meta.entries| then YieldChunk(r) else ReceiverReturns(r);
    }
    if v.opMeta == None {
      return TakeMeta(r);
    }
    if !FullSet(c.b, v.written) {
      var j: nat :| j < c.b && j !in v.written;
      return WriteByte(r, j);
    }
    step := if v.finished == 0 || v.pos == |v.meta.entries| then CompleteReceive(r) else YieldChunk(r);
  }

  /** Once the sender has returned, whatever a receiver waits for exists and was read. */
  lemma {:induction false} ServedAtEnd(c: Config, s: State, r: nat)
    requires Inv(c, s) && WireFull(c, s) && s.senderDone && r < |s.rs|
    ensures Served(c, s, r, s.rs[r])
  {
    hide SendInv, WireInv, Arrived, Yielded;
    var v := s.rs[r];
    assert ReceiverInv(c, s.packer.log, v);
    if Receiving(v) && v.finished > 0 {
      assert !v.meta.isLast;
      assert v.finished - 1 < |s.packer.log| - 1;
    }
  }

  /** A receiver that has not begun the broadcast in flight is at one that was read before. */
  lemma {:induction false} BehindGoesOn(c: Config, s: State, r: nat) returns (step: Step)
    requires Inv(c, s) && WireFull(c, s) && r < |s.rs| && s.rs[r].started < |s.packer.log|
    requires s.published == |s.packer.log|
    ensures Actor(step) == Some(r) && ReceiverEnabled(c, s, s.rs[r], step)
  {
    hide WireInv, Arrived, Yielded;
    var v := s.rs[r];
    assert ReceiverInv(c, s.packer.log, v);
    if v.finished > 0 {
      OnlyLastIsLast(s.packer, c.cs, c.b, v.finished - 1);
    }
    step := ServedGoesOn(c, s, r);
  }

  /** A receiver for which a byte of the broadcast in flight is missing has not completed it. */
  lemma {:induction false} MissingIsReceiving(c: Config, s: State, r: nat, j: nat)
    requires Inv(c, s) && AllReadBefore(c, s) && r < |s.rs| && j < c.b && |s.packer.log| > 0 && !IsRead(s, r, j)
    requires s.rs[r].started >= |s.packer.log|
    ensures Receiving(s.rs[r]) && s.rs[r].started == |s.packer.log|
  {
    hide SendInv, WireInv, Arrived, Yielded;
    var v := s.rs[r];
    assert ReceiverInv(c, s.packer.log, v);
    assert ReadBefore(c.b, s.wire, r, v);
    var k: nat := |s.packer.log| - 1;
    assert v.finished > k ==> WhollyRead(c.b, s.wire, r, k);
  }

  ghost predicate CanStep(c: Config, s: State)
    requires ShapedState(c, s)
  {
    exists step :: Enabled(c, s, step) && Meets(s, step)
  }

  /** Where the names within each bucket differ, every reachable state in which not every rank has returned
      has an enabled step, even if no byte is read before all receivers have begun the broadcast. */
  lemma {:induction false} NoDeadlock(c: Config, s: State, steps: seq<Step>, s': State)
    requires Init(c, s) && Run(c, s, steps, s') && !Finished(s') && AllNamesDiffer(Buckets(c.cs, c.b))
    ensures ShapedState(c, s') && CanStep(c, s')
  {
    InitInv(c, s);
    hide Init, SendInv, WireInv, ReceiverInv, AllReadBefore, WireFull, AllNamesDiffer;
    StartFull(c, s);
    StartReadBefore(c, s);
    RunKeepsFull(c, s, steps, s');
    RunReadBefore(c, s, steps, s');
    var step := UnfinishedGoesOn(c, s');
    assert Enabled(c, s', step);
  }

  lemma {:induction false} StartFull(c: Config, s: State)
    requires Init(c, s)
    ensures WireFull(c, s)
  {
  }

  lemma {:induction false} UnfinishedGoesOn(c: Config, s: State) returns (step: Step)
    requires Inv(c, s) && WireFull(c, s) && AllReadBefore(c, s) && !Finished(s)
    requires AllNamesDiffer(Buckets(c.cs, c.b))
    ensures Enabled(c, s, step) && Meets(s, step)
  {
    hide SendInv, WireInv, ReceiverInv, WireFull, AllReadBefore, ReceiverEnabled, AllNamesDiffer;
    if !s.senderDone {
      step := SenderGoesOn(c, s);
      if step.ReadByte? {
        var r, j := step.r, step.j;
        if r' :| 0 <= r' < |s.rs| && s.rs[r'].started < |s.packer.log| {
          step := BehindGoesOn(c, s, r');
        } else {
          MissingIsReceiving(c, s, r, j);
        }
      }
    } else {
      var r :| 0 <= r < |s.rs| && !s.rs[r].done;
      ServedAtEnd(c, s, r);
      step := ServedGoesOn(c, s, r);
    }
  }

  /** Then from every state of a run it can be carried on until all ranks have returned, and the transport
      need not buffer anything on the way. */
  lemma {:induction false} RunsToTheEnd(c: Config, s: State) returns (steps: seq<Step>, s': State)
    requires Inv(c, s) && WireFull(c, s) && AllReadBefore(c, s) && AllNamesDiffer(Buckets(c.cs, c.b))
    ensures MeetingRun(c, s, steps, s') && Finished(s')
    decreases Work(c, s)
  {
    hide SendInv, WireInv, ReceiverInv, WireFull, AllReadBefore, Work, Meets, AllNamesDiffer;
    if Finished(s) {
      steps, s' := [], s;
    } else {
      var step := UnfinishedGoesOn(c, s);
      StepWorks(c, s, step);
      StepKeepsInv(c, s, step);
      StepKeepsFull(c, s, step);
      StepReadBefore(c, s, step);
      WorkNonNegative(c, Apply(c, s, step));
      var rest;
      rest, s' := RunsToTheEnd(c, Apply(c, s, step));
      steps := [step] + rest;
      assert steps[1..] == rest;
    }
  }

  /** Any number of receivers can start, on any weights. */
  lemma {:induction false} CanStart(c: Config, junk: seq<Byte>) returns (s: State)
    requires AllFitting(c.cs, c.b) && |junk| == c.b
    ensures Init(c, s)
  {
    var v := Receiver([junk, junk], 0, 0, 0, None, {}, Meta([], false), 0, [], false);
    s := State(Packer(0, [], 0, [junk, junk], 0, []), false, 0, false, map[], seq(c.receivers, i => v));
  }

  /** Every transfer of weights of different names can be completed, and then every receiver has yielded
      exactly the weights. */
  lemma {:induction false} SomeRunDelivers(ws: seq<Weight>, c: Config, junk: seq<Byte>, fill: Junk)
    returns (s: State, steps: seq<Step>, s': State)
    requires c.b >= 1 && Sendable(ws) && DistinctNames(ws) && c.cs == Split(ws, c.b) && |junk| == c.b
    ensures Init(c, s) && MeetingRun(c, s, steps, s') && Finished(s') && |s'.rs| == c.receivers
    ensures forall r | 0 <= r < c.receivers :: MergeAll(s'.rs[r].delivered, c.b, fill) == Ok(MergeRun(Idle, ws))
  {
    hide SendInv, WireInv, ReceiverInv, Init, WireFull, AllReadBefore;
    SplitFits(ws, c.b);
    BucketNames(ws, c.b);
    s := CanStart(c, junk);
    InitInv(c, s);
    StartFull(c, s);
    StartReadBefore(c, s);
    steps, s' := RunsToTheEnd(c, s);
    MeetingRunIsRun(c, s, steps, s');
    RunInv(c, s, steps, s');
    forall r | 0 <= r < c.receivers ensures MergeAll(s'.rs[r].delivered, c.b, fill) == Ok(MergeRun(Idle, ws)) {
      EndToEnd(ws, c, s, steps, s', r, fill);
    }
  }

  // ------------------------------------------------------------------ the sender's assertion

  lemma {:induction false} StepKeepsNames(c: Config, s: State, step: Step)
    requires Inv(c, s) && NamesKept(s.packer) && Enabled(c, s, step)
    ensures NamesKept(Apply(c, s, step).packer)
  {
    hide SendInv, WireInv, ReceiverInv, NamesKept, Fresh;
    HandOutNames(s.packer);
    if step.PlaceChunk? {
      FillNames(s.packer, c.cs, c.b);
    }
  }

  lemma {:induction false} RunKeepsNames(c: Config, s: State, steps: seq<Step>, s': State)
    requires Inv(c, s) && NamesKept(s.packer) && Run(c, s, steps, s')
    ensures Inv(c, s') && NamesKept(s'.packer)
    decreases |steps|
  {
    hide NamesKept, SendInv, WireInv, ReceiverInv;
    if steps != [] {
      StepKeepsInv(c, s, steps[0]);
      StepKeepsNames(c, s, steps[0]);
      RunKeepsNames(c, Apply(c, s, steps[0]), steps[1..], s');
    }
  }

  /** In every reachable state the sender's assertion holds of the next chunk, where the names within each
      bucket differ. */
  lemma {:induction false} NameAssertionHolds(c: Config, s: State, steps: seq<Step>, s': State)
    requires Init(c, s) && Run(c, s, steps, s') && AllNamesDiffer(Buckets(c.cs, c.b))
    ensures CanFill(s'.packer, c.cs, c.b) ==> Fresh(s'.packer, c.cs)
  {
    hide SendInv, WireInv, ReceiverInv, Fresh, AllNamesDiffer;
    InitInv(c, s);
    RunInv(c, s, steps, s');
    if CanFill(s'.packer, c.cs, c.b) {
      FreshInMemory(s'.packer, c.cs, c.b);
    }
  }

  /** Otherwise the sender never returns: it fails on the way. */
  lemma {:induction false} ReturnMeansDiffer(c: Config, s: State, steps: seq<Step>, s': State)
    requires Init(c, s) && Run(c, s, steps, s') && s'.senderDone
    ensures AllNamesDiffer(Buckets(c.cs, c.b))
  {
    hide SendInv, WireInv, ReceiverInv, NamesKept, AllNamesDiffer;
    InitInv(c, s);
    StartNames(s.packer);
    RunKeepsNames(c, s, steps, s');
    KeptMeansDiffer(s'.packer, c.cs, c.b);
  }

  ghost predicate CanFinish(c: Config, s: State)
    requires ShapedState(c, s)
  {
    exists steps: seq<Step>, s': State :: Run(c, s, steps, s') && Finished(s')
  }

  /** A transfer can be completed exactly when the names within each bucket differ. */
  lemma {:induction false} FinishesExactly(c: Config, s: State)
    requires Init(c, s)
    ensures CanFinish(c, s) <==> AllNamesDiffer(Buckets(c.cs, c.b))
  {
    hide SendInv, WireInv, ReceiverInv, WireFull, AllReadBefore, AllNamesDiffer;
    InitInv(c, s);
    StartFull(c, s);
    StartReadBefore(c, s);
    if AllNamesDiffer(Buckets(c.cs, c.b)) {
      var steps, s' := RunsToTheEnd(c, s);
      MeetingRunIsRun(c, s, steps, s');
    }
    if CanFinish(c, s) {
      var steps, s' :| Run(c, s, steps, s') && Finished(s');
      ReturnMeansDiffer(c, s, steps, s');
    }
  }

  /** Two weights of a byte each under one name never arrive. */
  lemma {:induction false} NamesakesNeverArrive(ws: seq<Weight>, c: Config, s: State)
    requires |ws| == 2 && ws[0].name == ws[1].name && |ws[0].data| == |ws[1].data| == 1
    requires c.b >= 2 && c.cs == Split(ws, c.b) && Init(c, s)
    ensures !CanFinish(c, s)
  {
    NamesakesShare(ws, c.b);
    FinishesExactly(c, s);
  }
}
