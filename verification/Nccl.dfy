/** The NCCL engine: rank 0 broadcasts buckets to all receivers. A broadcast is asynchronous at
    every rank: between its start and its completion at the sender, each byte is read from the
    sender's buffer once for each receiver, at any moment and in any order; between start and
    completion at a receiver, the bytes on their way are written to the receiver's buffer. */
module Nccl {
  import opened Options
  import opened Weights
  import opened Packing
  import opened Sending
  import opened Counting

  datatype Config = Config(cs: seq<Chunk>, b: nat, receivers: nat)

  /** The local variables of `_receive_weight_chunks`; `started` and `finished` count the
      broadcasts begun and waited for, `written` the bytes of the one in flight that arrived,
      `pos` the chunks of the current bucket that were yielded. */
  datatype Receiver = Receiver(
    bufs: seq<seq<Byte>>, send: nat, started: nat, finished: nat, opMeta: Option<Meta>, written: set<nat>,
    meta: Meta, pos: nat, delivered: seq<Chunk>, done: bool)

  /** Byte `j` of broadcast `k`, on its way to receiver `r`. */
  datatype Slot = Slot(r: nat, k: nat, j: nat)

  /** `wire` holds the bytes that were read at the sender. */
  datatype State = State(
    packer: Packer, busy: bool, published: nat, senderDone: bool,
    wire: map<Slot, Byte>, rs: seq<Receiver>)

  datatype Step =
    | PlaceChunk | AwaitBroadcast | FlushBucket | FinishBucket | SenderReturns
    | Publish | ReadByte(r: nat, j: nat)
    | StartReceive(r: nat) | TakeMeta(r: nat) | WriteByte(r: nat, j: nat)
    | YieldChunk(r: nat) | CompleteReceive(r: nat) | ReceiverReturns(r: nat)

  predicate AllRead(c: Config, s: State) {
    && s.published == |s.packer.log|
    && forall r: nat, j: nat | r < c.receivers && j < c.b :: IsRead(s, r, j)
  }

  /** Byte `j` of the broadcast in flight was read for receiver `r`. */
  predicate IsRead(s: State, r: nat, j: nat) {
    s.packer.log != [] && Slot(r, |s.packer.log| - 1, j) in s.wire
  }

  predicate Receiving(v: Receiver) {
    v.started == v.finished + 1
  }

  /** When the sender can take a step: the awaits of `send_weights`, its assertion on the name, after whose
      failure it takes no more steps of its own, and its operation's own thread. */
  ghost predicate SenderEnabled(c: Config, s: State, step: Step) {
    var p := s.packer;
    match step
    case PlaceChunk => CanFill(p, c.cs, c.b) && !LastSent(p) && Fresh(p, c.cs)
    case AwaitBroadcast => s.busy && (AtFlush(p, c.cs, c.b) || AtEnd(p, c.cs) || LastSent(p)) && AllRead(c, s)
    case FlushBucket => !s.busy && AtFlush(p, c.cs, c.b) && !LastSent(p)
    case FinishBucket => !s.busy && AtEnd(p, c.cs)
    case SenderReturns => !s.busy && LastSent(p) && !s.senderDone
    case Publish => s.busy && s.published < |p.log|
    case ReadByte(r, j) =>
      s.busy && s.published == |p.log| > 0 && r < c.receivers && j < c.b && !IsRead(s, r, j)
    case _ => false
  }

  /** When a receiver in state `v` can take a step: the control flow of `_receive_weight_chunks`. */
  ghost predicate ReceiverEnabled(c: Config, s: State, v: Receiver, step: Step) {
    match step
    case StartReceive(_) => v.started == v.finished && (v.finished == 0 || !v.meta.isLast)
    case TakeMeta(_) => Receiving(v) && v.opMeta == None && v.started <= s.published
    case WriteByte(r, j) =>
      Receiving(v) && v.opMeta.Some? && j < c.b && j !in v.written && Slot(r, v.started - 1, j) in s.wire
    case YieldChunk(_) => v.finished > 0 && v.pos < |v.meta.entries| && (Receiving(v) || v.meta.isLast)
    case CompleteReceive(_) =>
      Receiving(v) && v.opMeta.Some? && FullSet(c.b, v.written) && (v.finished == 0 || v.pos == |v.meta.entries|)
    case ReceiverReturns(_) => v.finished > 0 && v.meta.isLast && v.pos == |v.meta.entries| && !v.done
    case _ => false
  }

  ghost predicate Enabled(c: Config, s: State, step: Step) {
    if Actor(step).Some? then
      Actor(step).value < |s.rs| && ReceiverEnabled(c, s, s.rs[Actor(step).value], step)
    else SenderEnabled(c, s, step)
  }

  // ------------------------------------------------------------------ receiver steps

  function StartOp(v: Receiver): Receiver {
    v.(started := v.started + 1, opMeta := None, written := {})
  }

  function GetMeta(v: Receiver, parcel: Parcel): Receiver {
    v.(opMeta := Some(MetaOf(parcel)))
  }

  function Receive(v: Receiver, j: nat, x: Byte): Receiver
    requires |v.bufs| == 2 && v.send < 2 && j < |v.bufs[1 - v.send]|
  {
    v.(written := v.written + {j}, bufs := v.bufs[1 - v.send := v.bufs[1 - v.send][j := x]])
  }

  function YieldNext(v: Receiver): Receiver
    requires |v.bufs| == 2 && v.send < 2 && v.pos < |v.meta.entries|
  {
    v.(delivered := v.delivered + [View(v.meta.entries[v.pos], v.bufs[v.send])], pos := v.pos + 1)
  }

  function CompleteOp(v: Receiver): Receiver
    requires v.opMeta.Some? && v.send < 2
  {
    v.(meta := v.opMeta.value, opMeta := None, send := 1 - v.send, finished := v.started, pos := 0, written := {})
  }

  function Actor(step: Step): Option<nat> {
    match step
    case StartReceive(r) => Some(r)
    case TakeMeta(r) => Some(r)
    case WriteByte(r, _) => Some(r)
    case YieldChunk(r) => Some(r)
    case CompleteReceive(r) => Some(r)
    case ReceiverReturns(r) => Some(r)
    case _ => None
  }

  // ------------------------------------------------------------------ global steps

  ghost predicate ShapedReceiver(v: Receiver, b: nat) {
    |v.bufs| == 2 && |v.bufs[0]| == b && |v.bufs[1]| == b && v.send < 2
  }

  ghost function ReceiverStep(c: Config, s: State, v: Receiver, step: Step): Receiver
    requires ShapedReceiver(v, c.b) && Actor(step).Some? && ReceiverEnabled(c, s, v, step)
    requires s.published <= |s.packer.log|
  {
    match step
    case StartReceive(_) => StartOp(v)
    case TakeMeta(_) => GetMeta(v, s.packer.log[v.started - 1])
    case WriteByte(r, j) => Receive(v, j, s.wire[Slot(r, v.started - 1, j)])
    case YieldChunk(_) => YieldNext(v)
    case CompleteReceive(_) => CompleteOp(v)
    case ReceiverReturns(_) => v.(done := true)
  }

  ghost function SenderStep(c: Config, s: State, step: Step): State
    requires Shaped(s.packer, c.b) && AllFitting(c.cs, c.b)
    requires Actor(step) == None && SenderEnabled(c, s, step)
  {
    var p := s.packer;
    match step
    case PlaceChunk =>
      assert Fitting(c.cs[p.next], c.b);
      s.(packer := Fill(p, c.cs[p.next], c.b))
    case AwaitBroadcast => s.(busy := false)
    case FlushBucket => s.(packer := Flush(p), busy := true)
    case FinishBucket => s.(packer := Finish(p), busy := true)
    case SenderReturns => s.(senderDone := true)
    case Publish => s.(published := s.published + 1)
    case ReadByte(r, j) => s.(wire := s.wire[Slot(r, |p.log| - 1, j) := p.bufs[Outstanding(p)][j]])
  }

  ghost predicate ShapedState(c: Config, s: State) {
    && AllFitting(c.cs, c.b)
    && Shaped(s.packer, c.b) && s.published <= |s.packer.log| && |s.rs| == c.receivers
    && forall r | 0 <= r < |s.rs| :: ShapedReceiver(s.rs[r], c.b)
  }

  ghost function Apply(c: Config, s: State, step: Step): State
    requires ShapedState(c, s) && Enabled(c, s, step)
  {
    if Actor(step).Some? then
      var r := Actor(step).value;
      s.(rs := s.rs[r := ReceiverStep(c, s, s.rs[r], step)])
    else SenderStep(c, s, step)
  }

  ghost predicate Init(c: Config, s: State) {
    && ShapedState(c, s) && Started(s.packer) && !s.busy && s.published == 0 && !s.senderDone && s.wire == map[]
    && forall r | 0 <= r < |s.rs| :: InitReceiver(s.rs[r])
  }

  predicate InitReceiver(v: Receiver) {
    v.started == 0 && v.finished == 0 && v.opMeta == None && v.written == {} && v.pos == 0
    && v.delivered == [] && !v.done
  }

  // ------------------------------------------------------------------ invariant

  /** While a broadcast is in flight, its buffer is as it was handed out. */
  ghost predicate InFlight(p: Packer, busy: bool, published: nat) {
    && |p.bufs| == 2 && p.send < 2
    && (busy ==> p.log != [] && p.bufs[Outstanding(p)] == p.log[|p.log| - 1].buf)
    && published <= |p.log| && (!busy ==> published == |p.log|)
    && (busy ==> published >= |p.log| - 1)
  }

  ghost predicate OnWire(c: Config, log: seq<Parcel>, k: Slot, x: Byte) {
    k.r < c.receivers && k.k < |log| && k.j < |log[k.k].buf| && x == log[k.k].buf[k.j]
  }

  ghost predicate WireInv(c: Config, log: seq<Parcel>, wire: map<Slot, Byte>) {
    forall k | k in wire :: OnWire(c, log, k, wire[k])
  }

  /** At most one broadcast is in flight at a receiver. */
  ghost predicate Counts(v: Receiver, b: nat) {
    && ShapedReceiver(v, b)
    && v.finished <= v.started <= v.finished + 1
    && (v.finished > 0 && v.meta.isLast ==> !Receiving(v))
    && (v.finished > 0 && !v.meta.isLast && !Receiving(v) ==> v.pos == 0)
    && (v.done ==> v.finished > 0 && v.meta.isLast && v.pos == |v.meta.entries|)
  }

  /** What has arrived of the broadcast in flight. */
  ghost predicate Incoming(log: seq<Parcel>, v: Receiver) {
    && |v.bufs| == 2 && v.send < 2
    && (v.opMeta == None ==> v.written == {})
    && (v.opMeta.Some? ==>
          && Receiving(v) && v.started <= |log|
          && v.opMeta.value == MetaOf(log[v.started - 1])
          && Arrived(log[v.started - 1].buf, v.bufs[1 - v.send], v.written))
  }

  /** The bucket being yielded is a parcel, whole and unchanged, while the next one arrives. */
  ghost predicate Current(log: seq<Parcel>, v: Receiver) {
    && |v.bufs| == 2 && v.send < 2 && v.finished <= |log|
    && (v.finished == 0 ==> v.delivered == [] && v.pos == 0)
    && (v.finished > 0 ==>
          && v.bufs[v.send] == log[v.finished - 1].buf
          && v.meta == MetaOf(log[v.finished - 1])
          && v.pos <= |v.meta.entries|
          && v.delivered == Yielded(log, v.finished - 1, v.pos))
  }

  ghost predicate ReceiverInv(c: Config, log: seq<Parcel>, v: Receiver) {
    Counts(v, c.b) && Incoming(log, v) && Current(log, v)
  }

  ghost predicate Inv(c: Config, s: State) {
    && ShapedState(c, s)
    && SendInv(s.packer, c.cs, c.b)
    && Sized(s.packer.log, c.b)
    && InFlight(s.packer, s.busy, s.published)
    && (s.senderDone ==> LastSent(s.packer) && !s.busy)
    && WireInv(c, s.packer.log, s.wire)
    && forall r | 0 <= r < |s.rs| :: ReceiverInv(c, s.packer.log, s.rs[r])
  }

  lemma {:induction false} InitInv(c: Config, s: State)
    requires Init(c, s)
    ensures Inv(c, s)
  {
    StartInv(s.packer, c.cs, c.b);
    forall r | 0 <= r < |s.rs| ensures ReceiverInv(c, s.packer.log, s.rs[r]) {
      assert InitReceiver(s.rs[r]);
    }
  }

  // ------------------------------------------------------------------ receiver steps keep the invariant

  lemma {:induction false} ReceiveKeepsInv(c: Config, log: seq<Parcel>, v: Receiver, j: nat, x: Byte)
    requires ReceiverInv(c, log, v) && v.opMeta.Some? && j < c.b && x == log[v.started - 1].buf[j]
    ensures ReceiverInv(c, log, Receive(v, j, x))
  {
  }

  lemma {:induction false} YieldKeepsInv(c: Config, log: seq<Parcel>, v: Receiver)
    requires ReceiverInv(c, log, v) && v.finished > 0 && v.pos < |v.meta.entries|
    requires Receiving(v) || v.meta.isLast
    ensures ReceiverInv(c, log, YieldNext(v))
  {
    YieldedNext(log, v.finished - 1, v.pos);
  }

  lemma {:induction false} CompleteKeepsInv(c: Config, log: seq<Parcel>, v: Receiver)
    requires ReceiverInv(c, log, v) && v.opMeta.Some? && FullSet(c.b, v.written)
    requires v.finished == 0 || v.pos == |v.meta.entries|
    ensures ReceiverInv(c, log, CompleteOp(v))
  {
    ArrivedWhole(log[v.started - 1].buf, v.bufs[1 - v.send], v.written);
    if v.finished > 0 {
      YieldedNextParcel(log, v.finished - 1);
    } else {
      YieldedStart(log);
    }
  }

  lemma {:induction false} ReceiverKeepsInv(c: Config, s: State, v: Receiver, step: Step)
    requires ReceiverInv(c, s.packer.log, v) && Actor(step).Some? && ReceiverEnabled(c, s, v, step)
    requires s.published <= |s.packer.log|
    requires WireInv(c, s.packer.log, s.wire) && Sized(s.packer.log, c.b)
    ensures ReceiverInv(c, s.packer.log, ReceiverStep(c, s, v, step))
  {
    match step {
      case WriteByte(r, j) =>
        var k := Slot(r, v.started - 1, j);
        assert OnWire(c, s.packer.log, k, s.wire[k]);
        ReceiveKeepsInv(c, s.packer.log, v, j, s.wire[k]);
      case YieldChunk(_) => YieldKeepsInv(c, s.packer.log, v);
      case CompleteReceive(_) => CompleteKeepsInv(c, s.packer.log, v);
      case _ =>
    }
  }

  // ------------------------------------------------------------------ sender steps keep the invariant

  /** A receiver only looks at parcels already in the log. */
  lemma {:induction false} ReceiverFrame(c: Config, log: seq<Parcel>, log': seq<Parcel>, v: Receiver)
    requires ReceiverInv(c, log, v) && Extends(log, log')
    ensures ReceiverInv(c, log', v)
  {
    if v.finished > 0 {
      assert log'[..|log|] == log;
      UnpackedFrame(log, log', v.finished - 1);
    }
  }

  lemma {:induction false} SenderKeepsSendInv(c: Config, s: State, step: Step)
    requires Shaped(s.packer, c.b) && SendInv(s.packer, c.cs, c.b) && AllFitting(c.cs, c.b)
    requires Actor(step) == None && SenderEnabled(c, s, step)
    ensures SendInv(SenderStep(c, s, step).packer, c.cs, c.b)
  {
    match step {
      case PlaceChunk => FillInv(s.packer, c.cs, c.b);
      case FlushBucket => FlushInv(s.packer, c.cs, c.b);
      case FinishBucket => FinishInv(s.packer, c.cs, c.b);
      case _ =>
    }
  }

  /** The sender never writes the buffer that is being broadcast. */
  lemma {:induction false} SenderKeepsInFlight(c: Config, s: State, step: Step)
    requires Shaped(s.packer, c.b) && AllFitting(c.cs, c.b) && Sized(s.packer.log, c.b)
    requires InFlight(s.packer, s.busy, s.published)
    requires Actor(step) == None && SenderEnabled(c, s, step)
    ensures var s' := SenderStep(c, s, step);
            && InFlight(s'.packer, s'.busy, s'.published)
            && Extends(s.packer.log, s'.packer.log) && Sized(s'.packer.log, c.b)
  {
  }

  /** What is read from the sender's buffer is what was there when the broadcast started. */
  lemma {:induction false} SenderKeepsWireInv(c: Config, s: State, step: Step)
    requires Shaped(s.packer, c.b) && AllFitting(c.cs, c.b) && Sized(s.packer.log, c.b)
    requires InFlight(s.packer, s.busy, s.published) && WireInv(c, s.packer.log, s.wire)
    requires Actor(step) == None && SenderEnabled(c, s, step)
    requires Extends(s.packer.log, SenderStep(c, s, step).packer.log)
    ensures WireInv(c, SenderStep(c, s, step).packer.log, SenderStep(c, s, step).wire)
  {
    var s' := SenderStep(c, s, step);
    forall k | k in s'.wire ensures OnWire(c, s'.packer.log, k, s'.wire[k]) {
      if k in s.wire {
        assert OnWire(c, s.packer.log, k, s.wire[k]);
      }
    }
  }

  lemma {:induction false} SenderKeepsInv(c: Config, s: State, step: Step)
    requires Inv(c, s) && Actor(step) == None && SenderEnabled(c, s, step)
    ensures Inv(c, SenderStep(c, s, step))
  {
    var s' := SenderStep(c, s, step);
    SenderKeepsSendInv(c, s, step);
    SenderKeepsInFlight(c, s, step);
    SenderKeepsWireInv(c, s, step);
    forall r | 0 <= r < |s'.rs| ensures ReceiverInv(c, s'.packer.log, s'.rs[r]) {
      ReceiverFrame(c, s.packer.log, s'.packer.log, s.rs[r]);
    }
  }

  lemma {:induction false} StepKeepsInv(c: Config, s: State, step: Step)
    requires Inv(c, s) && Enabled(c, s, step)
    ensures Inv(c, Apply(c, s, step))
  {
    if Actor(step).Some? {
      ReceiverKeepsInv(c, s, s.rs[Actor(step).value], step);
    } else {
      SenderKeepsInv(c, s, step);
    }
  }

  // ------------------------------------------------------------------ runs

  /** The states reached from `s` by a list of steps, each enabled where it is taken. */
  ghost predicate Run(c: Config, s: State, steps: seq<Step>, s': State)
    requires ShapedState(c, s)
    decreases |steps|
  {
    if steps == [] then s' == s else
    Enabled(c, s, steps[0]) && ShapedState(c, Apply(c, s, steps[0])) && Run(c, Apply(c, s, steps[0]), steps[1..], s')
  }

  lemma {:induction false} RunInv(c: Config, s: State, steps: seq<Step>, s': State)
    requires Inv(c, s) && Run(c, s, steps, s')
    ensures Inv(c, s')
    decreases |steps|
  {
    if steps != [] {
      StepKeepsInv(c, s, steps[0]);
      RunInv(c, Apply(c, s, steps[0]), steps[1..], s');
    }
  }

  lemma {:induction false} Delivered(c: Config, log: seq<Parcel>, v: Receiver)
    requires ReceiverInv(c, log, v)
    ensures v.delivered <= Unpacked(log, |log|)
    ensures v.done && v.finished == |log| ==> v.delivered == Unpacked(log, |log|)
  {
    if v.finished > 0 {
      YieldedPrefix(log, v.finished - 1, v.pos);
      var u := Unpack(log[v.finished - 1].entries, log[v.finished - 1].buf);
      assert u[..|u|] == u;
    }
  }

  /** End to end, in every interleaving: what a receiver has merged is always a prefix of the
      weights given to `send_weights`, no assertion of the merger fires, and a receiver that
      returns has yielded exactly those weights. */
  lemma {:induction false} EndToEnd(
    ws: seq<Weight>, c: Config, s: State, steps: seq<Step>, s': State, r: nat, junk: Junk)
    requires c.b >= 1 && Sendable(ws) && c.cs == Split(ws, c.b)
    requires Init(c, s) && Run(c, s, steps, s') && r < c.receivers
    ensures |s'.rs| == c.receivers
    ensures var m := MergeAll(s'.rs[r].delivered, c.b, junk);
            && m.Ok? && m.run.out <= ws
            && (s'.rs[r].done ==> m.run == MergeRun(Idle, ws))
  {
    InitInv(c, s);
    RunInv(c, s, steps, s');
    var v := s'.rs[r];
    assert ReceiverInv(c, s'.packer.log, v);
    Delivered(c, s'.packer.log, v);
    if v.done {
      OnlyLastIsLast(s'.packer, c.cs, c.b, v.finished - 1);
    }
    MergeReceived(ws, c.b, junk, s'.packer, v.delivered);
  }

  /** While a receiver yields, the view it hands out is the chunk as it was packed, although the
      next broadcast is arriving. */
  lemma {:induction false} ViewsAreStable(c: Config, s: State, steps: seq<Step>, s': State, r: nat, i: nat)
    requires Init(c, s) && Run(c, s, steps, s') && r < |s'.rs|
    requires s'.rs[r].finished > 0 && i < |s'.rs[r].meta.entries|
    ensures var k := s'.rs[r].finished - 1;
            && k < |Buckets(c.cs, c.b)| && i < |Buckets(c.cs, c.b)[k]| && s'.rs[r].send < |s'.rs[r].bufs|
            && View(s'.rs[r].meta.entries[i], s'.rs[r].bufs[s'.rs[r].send]) == Buckets(c.cs, c.b)[k][i]
  {
    InitInv(c, s);
    RunInv(c, s, steps, s');
    var v := s'.rs[r];
    var k := v.finished - 1;
    assert ReceiverInv(c, s'.packer.log, v);
    LogPrefix(s'.packer, c.cs, c.b);
    var parcel, bucket := s'.packer.log[k], Buckets(c.cs, c.b)[k];
    assert Matches(parcel, bucket, c.b);
    UnpackHeld(parcel.buf, bucket);
    assert Unpack(Metas(bucket), parcel.buf)[i] == View(Metas(bucket)[i], parcel.buf);
  }

  /** While a broadcast is in flight, the sender's buffer holds what it held when the broadcast began;
      and no rank ever has two broadcasts in flight. */
  lemma {:induction false} OneBroadcastAtATime(c: Config, s: State, steps: seq<Step>, s': State, r: nat)
    requires Init(c, s) && Run(c, s, steps, s') && r < c.receivers
    ensures s'.busy ==> s'.packer.log != [] && Outstanding(s'.packer) < |s'.packer.bufs|
                        && s'.packer.bufs[Outstanding(s'.packer)] == s'.packer.log[|s'.packer.log| - 1].buf
    ensures r < |s'.rs| && s'.rs[r].finished <= s'.rs[r].started <= s'.rs[r].finished + 1
    ensures s'.published <= |s'.packer.log| <= s'.published + 1
  {
    hide SendInv, WireInv, Incoming, Current, Init, Run;
    InitInv(c, s);
    RunInv(c, s, steps, s');
    assert ReceiverInv(c, s'.packer.log, s'.rs[r]);
  }
}
