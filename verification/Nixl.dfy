/** The NIXL engine: a store-and-forward chain. Rank 0 packs buckets; every rank lets the next one
    read its buffer over RDMA, and waits for the notification of the reader before it touches that
    buffer again. A read copies byte by byte, in any order and at any moment between its start and
    its completion. */
module Nixl {
  import opened Options
  import opened Weights
  import opened Packing
  import opened Sending
  import opened Counting

  datatype Config = Config(cs: seq<Chunk>, b: nat)

  /** The message of a `ReadableOperation`: its notify key, the buffer to read and the metadata. */
  datatype Msg = Msg(key: nat, desc: nat, meta: Meta)

  /** Between two neighbours: messages down the chain, notifications up the chain. */
  datatype Link = Link(queue: seq<Msg>, notifs: seq<nat>)

  /** A `ReadOperation` after `begin_read`. */
  datatype Xfer = NoXfer | Xfer(msg: Msg, copied: set<nat>, complete: bool)

  datatype Pc = AtTop | AwaitMeta | Yielding | AwaitNotify | AwaitRead | Returned

  /** The local variables of `_receive_weight_chunks`. `got` counts the buckets received whole,
      `offered` and `released` the readable operations created and waited for. */
  datatype Relay = Relay(
    bufs: seq<seq<Byte>>, send: nat, got: nat, meta: Meta, pos: nat, pc: Pc,
    offered: nat, released: nat, key: nat, xfer: Xfer, delivered: seq<Chunk>)

  /** The local variables of `send_weights` on rank 0. */
  datatype Head = Head(packer: Packer, released: nat, key: nat, returned: bool)

  /** `links[i]` leads to `relays[i]`; behind the last relay there is a link that nobody uses. */
  datatype State = State(head: Head, relays: seq<Relay>, links: seq<Link>)

  datatype Step =
    | PlaceChunk | AwaitReadable | OfferBucket(key: nat) | OfferLast(key: nat) | HeadReturns
    | Offer(i: nat, key: nat) | ReadMessage(i: nat) | CopyByte(i: nat, j: nat) | CompleteRead(i: nat)
    | YieldChunk(i: nat) | EndYield(i: nat) | TakeNotify(i: nat) | SwapBuffers(i: nat)

  function Offered(h: Head): nat {
    |h.packer.log|
  }

  // ------------------------------------------------------------------ steps of one rank

  /** A rank with the links on both sides of it. */
  datatype Station = Station(v: Relay, inn: Link, out: Link)

  function DoOffer(l: Station, key: nat, hasNext: bool): Station {
    var v := l.v.(pc := if l.v.meta.isLast then Yielding else AwaitMeta);
    if hasNext then
      l.(v := v.(offered := v.offered + 1, key := key),
         out := l.out.(queue := l.out.queue + [Msg(key, v.send, v.meta)]))
    else l.(v := v)
  }

  function DoReadMessage(l: Station): Station
    requires l.inn.queue != []
  {
    l.(v := l.v.(xfer := Xfer(l.inn.queue[0], {}, false), pc := if l.v.got == 0 then AwaitRead else Yielding),
       inn := l.inn.(queue := l.inn.queue[1..]))
  }

  function DoCopy(v: Relay, j: nat, x: Byte): Relay
    requires v.xfer.Xfer? && |v.bufs| == 2 && v.send < 2 && j < |v.bufs[1 - v.send]|
  {
    v.(xfer := v.xfer.(copied := v.xfer.copied + {j}),
       bufs := v.bufs[1 - v.send := v.bufs[1 - v.send][j := x]])
  }

  function DoComplete(l: Station): Station
    requires l.v.xfer.Xfer?
  {
    l.(v := l.v.(xfer := l.v.xfer.(complete := true)),
       inn := l.inn.(notifs := l.inn.notifs + [l.v.xfer.msg.key]))
  }

  function DoYield(v: Relay): Relay
    requires |v.bufs| == 2 && v.send < 2 && v.pos < |v.meta.entries|
  {
    v.(delivered := v.delivered + [View(v.meta.entries[v.pos], v.bufs[v.send])], pos := v.pos + 1)
  }

  function DoTakeNotify(l: Station, hasNext: bool): Station
    requires hasNext ==> l.out.notifs != []
  {
    var v := l.v.(pc := if l.v.meta.isLast then Returned else AwaitRead);
    if hasNext then l.(v := v.(released := v.released + 1), out := l.out.(notifs := l.out.notifs[1..]))
    else l.(v := v)
  }

  function DoSwap(v: Relay): Relay
    requires v.xfer.Xfer? && v.send < 2
  {
    v.(meta := v.xfer.msg.meta, xfer := NoXfer, send := 1 - v.send, got := v.got + 1, pos := 0, pc := AtTop)
  }

  // ------------------------------------------------------------------ the chain

  /** What the reader on the other side of a link depends on. */
  datatype Up = Up(offered: nat, released: nat, key: nat, desc: nat, bufs: seq<seq<Byte>>)

  function UpOfHead(h: Head): Up {
    Up(Offered(h), h.released, h.key, Outstanding(h.packer), h.packer.bufs)
  }

  function UpOfRelay(v: Relay): Up {
    Up(v.offered, v.released, v.key, v.send, v.bufs)
  }

  function UpOf(s: State, i: nat): Up
    requires i <= |s.relays|
  {
    if i == 0 then UpOfHead(s.head) else UpOfRelay(s.relays[i - 1])
  }

  function HasNext(s: State, i: nat): bool {
    i + 1 < |s.relays|
  }

  function StationOf(s: State, i: nat): Station
    requires i < |s.relays| && |s.links| == |s.relays| + 1
  {
    Station(s.relays[i], s.links[i], s.links[i + 1])
  }

  function PutStation(s: State, i: nat, l: Station): State
    requires i < |s.relays| && |s.links| == |s.relays| + 1
  {
    s.(relays := s.relays[i := l.v], links := s.links[i := l.inn][i + 1 := l.out])
  }

  function Actor(step: Step): Option<nat> {
    match step
    case Offer(i, _) => Some(i)
    case ReadMessage(i) => Some(i)
    case CopyByte(i, _) => Some(i)
    case CompleteRead(i) => Some(i)
    case YieldChunk(i) => Some(i)
    case EndYield(i) => Some(i)
    case TakeNotify(i) => Some(i)
    case SwapBuffers(i) => Some(i)
    case _ => None
  }

  /** When rank 0 can take a step, with `link` to the first relay. After a failure of its assertion on the
      name it takes none. */
  predicate HeadEnabled(c: Config, h: Head, link: Link, step: Step) {
    var p := h.packer;
    match step
    case PlaceChunk => CanFill(p, c.cs, c.b) && !LastSent(p) && Fresh(p, c.cs)
    case AwaitReadable =>
      Offered(h) > h.released && (AtFlush(p, c.cs, c.b) || AtEnd(p, c.cs) || LastSent(p)) && link.notifs != []
    case OfferBucket(_) => Offered(h) == h.released && AtFlush(p, c.cs, c.b) && !LastSent(p)
    case OfferLast(_) => Offered(h) == h.released && AtEnd(p, c.cs)
    case HeadReturns => Offered(h) == h.released && LastSent(p) && !h.returned
    case _ => false
  }

  /** When a relay can take a step: the control flow and the awaits of
      `_receive_weight_chunks`. */
  ghost predicate RelayEnabled(c: Config, l: Station, up: Up, hasNext: bool, step: Step) {
    var v := l.v;
    match step
    case Offer(_, _) => v.pc == AtTop
    case ReadMessage(_) => v.pc == AwaitMeta && l.inn.queue != []
    case CopyByte(_, j) =>
      && v.xfer.Xfer? && !v.xfer.complete && j < c.b && j !in v.xfer.copied
      && v.xfer.msg.desc < |up.bufs| && j < |up.bufs[v.xfer.msg.desc]|
    case CompleteRead(_) => v.xfer.Xfer? && !v.xfer.complete && FullSet(c.b, v.xfer.copied)
    case YieldChunk(_) => v.pc == Yielding && v.pos < |v.meta.entries|
    case EndYield(_) => v.pc == Yielding && v.pos == |v.meta.entries|
    case TakeNotify(_) => v.pc == AwaitNotify && (hasNext ==> l.out.notifs != [])
    case SwapBuffers(_) => v.pc == AwaitRead && v.xfer.Xfer? && v.xfer.complete
    case _ => false
  }

  ghost predicate ShapedRelay(v: Relay, b: nat) {
    |v.bufs| == 2 && |v.bufs[0]| == b && |v.bufs[1]| == b && v.send < 2
  }

  ghost function RelayStep(c: Config, l: Station, up: Up, hasNext: bool, step: Step): Station
    requires ShapedRelay(l.v, c.b) && RelayEnabled(c, l, up, hasNext, step)
  {
    match step
    case Offer(_, key) => DoOffer(l, key, hasNext)
    case ReadMessage(_) => DoReadMessage(l)
    case CopyByte(_, j) => l.(v := DoCopy(l.v, j, up.bufs[l.v.xfer.msg.desc][j]))
    case CompleteRead(_) => DoComplete(l)
    case YieldChunk(_) => l.(v := DoYield(l.v))
    case EndYield(_) => l.(v := l.v.(pc := AwaitNotify))
    case TakeNotify(_) => DoTakeNotify(l, hasNext)
    case SwapBuffers(_) => l.(v := DoSwap(l.v))
  }

  /** Rank 0 together with the link to the first relay. */
  datatype HeadStation = HeadStation(h: Head, out: Link)

  function OfferParcel(h: Head, p: Packer, key: nat): HeadStation
    requires p.log != []
  {
    HeadStation(h.(packer := p, key := key), Link([Msg(key, Outstanding(p), MetaOf(p.log[|p.log| - 1]))], []))
  }

  function HeadStep(c: Config, h: Head, link: Link, step: Step): HeadStation
    requires |h.packer.bufs| == 2 && |h.packer.bufs[0]| == c.b && |h.packer.bufs[1]| == c.b && h.packer.send < 2
    requires AllFitting(c.cs, c.b) && HeadEnabled(c, h, link, step)
  {
    var p := h.packer;
    match step
    case PlaceChunk =>
      assert Fitting(c.cs[p.next], c.b);
      HeadStation(h.(packer := Fill(p, c.cs[p.next], c.b)), link)
    case AwaitReadable => HeadStation(h.(released := h.released + 1), link.(notifs := link.notifs[1..]))
    case OfferBucket(key) =>
      var l := OfferParcel(h, Flush(p), key);
      l.(out := Link(link.queue + l.out.queue, link.notifs))
    case OfferLast(key) =>
      var l := OfferParcel(h, Finish(p), key);
      l.(out := Link(link.queue + l.out.queue, link.notifs))
    case HeadReturns => HeadStation(h.(returned := true), link)
  }

  ghost predicate ShapedState(c: Config, s: State) {
    && AllFitting(c.cs, c.b)
    && Shaped(s.head.packer, c.b) && |s.relays| >= 1 && |s.links| == |s.relays| + 1
    && forall i | 0 <= i < |s.relays| :: ShapedRelay(s.relays[i], c.b)
  }

  ghost predicate Enabled(c: Config, s: State, step: Step)
    requires ShapedState(c, s)
  {
    if Actor(step).Some? then
      var i := Actor(step).value;
      i < |s.relays| && RelayEnabled(c, StationOf(s, i), UpOf(s, i), HasNext(s, i), step)
    else HeadEnabled(c, s.head, s.links[0], step)
  }

  ghost function Apply(c: Config, s: State, step: Step): State
    requires ShapedState(c, s) && Enabled(c, s, step)
  {
    if Actor(step).Some? then
      var i := Actor(step).value;
      PutStation(s, i, RelayStep(c, StationOf(s, i), UpOf(s, i), HasNext(s, i), step))
    else
      var l := HeadStep(c, s.head, s.links[0], step);
      s.(head := l.h, links := s.links[0 := l.out])
  }

  ghost predicate Init(c: Config, s: State) {
    && ShapedState(c, s) && Started(s.head.packer) && s.head.released == 0 && !s.head.returned
    && (forall i | 0 <= i < |s.relays| :: InitRelay(s.relays[i]))
    && forall i | 0 <= i < |s.links| :: s.links[i] == Link([], [])
  }

  predicate InitRelay(v: Relay) {
    v.got == 0 && v.pos == 0 && v.meta.entries == [] && v.pc == AwaitMeta && v.offered == 0 && v.released == 0
    && v.xfer == NoXfer && v.delivered == []
  }

  // ------------------------------------------------------------------ invariant

  predicate Active(v: Relay) {
    v.xfer.Xfer?
  }

  /** Metadata messages read, and reads completed. */
  function Reads(v: Relay): nat {
    v.got + if v.xfer.Xfer? then 1 else 0
  }

  function Completed(v: Relay): nat {
    v.got + if v.xfer.Xfer? && v.xfer.complete then 1 else 0
  }

  /** The control state of a relay: which operations are pending where. */
  predicate Control(v: Relay, hasNext: bool) {
    && (v.pc != AwaitMeta && v.pc != AwaitRead ==> v.got > 0)
    && (v.pc == AtTop ==> !Active(v) && v.pos == 0)
    && (v.pc == AwaitMeta ==> !Active(v) && (v.got > 0 ==> !v.meta.isLast && v.pos == 0))
    && (v.pc == Yielding || v.pc == AwaitNotify ==> (Active(v) <==> !v.meta.isLast))
    && (v.pc == AwaitNotify ==> v.pos == |v.meta.entries|)
    && (v.pc == AwaitRead ==> Active(v) && (v.got > 0 ==> !v.meta.isLast && v.pos == |v.meta.entries|))
    && (v.pc == Returned ==> !Active(v) && v.meta.isLast && v.pos == |v.meta.entries|)
    && v.offered == (if !hasNext || v.got == 0 then 0 else if v.pc == AtTop then v.got - 1 else v.got)
    && v.released == (if !hasNext || v.got == 0 then 0
                      else if v.pc == AwaitRead || v.pc == Returned then v.got else v.got - 1)
  }

  /** The bytes of a relay: the bucket it yields and forwards is whole, the one it receives is
      right as far as it was copied. */
  ghost predicate Contents(log: seq<Parcel>, v: Relay, b: nat) {
    && ShapedRelay(v, b) && v.got <= |log|
    && (v.got == 0 ==> v.delivered == [] && v.pos == 0 && v.meta.entries == [])
    && (v.got > 0 ==>
          && v.bufs[v.send] == log[v.got - 1].buf && v.meta == MetaOf(log[v.got - 1])
          && v.pos <= |v.meta.entries| && v.delivered == Yielded(log, v.got - 1, v.pos))
    && (v.xfer.Xfer? ==>
          && v.got < |log| && v.xfer.msg.meta == MetaOf(log[v.got])
          && Arrived(log[v.got].buf, v.bufs[1 - v.send], v.xfer.copied)
          && (v.xfer.complete ==> FullSet(b, v.xfer.copied)))
  }

  ghost predicate RelayInv(log: seq<Parcel>, v: Relay, hasNext: bool, b: nat) {
    Control(v, hasNext) && Contents(log, v, b)
  }

  /** While an operation is outstanding, its buffer holds the parcel that was offered. */
  ghost predicate UpInv(log: seq<Parcel>, up: Up) {
    && up.offered <= |log| && up.released <= up.offered <= up.released + 1
    && (up.offered > up.released ==>
          up.desc < |up.bufs| && up.bufs[up.desc] == log[up.offered - 1].buf)
  }

  /** Messages and notifications on a link are exactly those the two sides have not consumed. */
  ghost predicate LinkInv(log: seq<Parcel>, up: Up, link: Link, v: Relay) {
    && UpInv(log, up)
    && up.released <= Completed(v) && Reads(v) <= up.offered
    && |link.queue| == up.offered - Reads(v)
    && |link.notifs| == Completed(v) - up.released
    && (link.queue != [] ==> link.queue[0] == Msg(up.key, up.desc, MetaOf(log[up.offered - 1])))
    && (link.notifs != [] ==> link.notifs[0] == up.key)
    && (v.xfer.Xfer? && !v.xfer.complete ==> v.xfer.msg.key == up.key && v.xfer.msg.desc == up.desc)
  }

  ghost predicate HeadInv(c: Config, h: Head) {
    && Shaped(h.packer, c.b) && SendInv(h.packer, c.cs, c.b) && Sized(h.packer.log, c.b)
    && UpInv(h.packer.log, UpOfHead(h))
    && (h.returned ==> LastSent(h.packer) && Offered(h) == h.released)
  }

  ghost predicate Inv(c: Config, s: State) {
    ShapedState(c, s) && HeadInv(c, s.head) && RelaysInv(s, c.b) && LinksInv(s)
  }

  ghost predicate RelaysInv(s: State, b: nat) {
    forall i | 0 <= i < |s.relays| :: RelayInv(s.head.packer.log, s.relays[i], HasNext(s, i), b)
  }

  ghost predicate LinksInv(s: State) {
    && |s.links| == |s.relays| + 1
    && forall i {:trigger s.links[i]} | 0 <= i < |s.relays| ::
         LinkInv(s.head.packer.log, UpOf(s, i), s.links[i], s.relays[i])
  }

  lemma {:induction false} InitInv(c: Config, s: State)
    requires Init(c, s)
    ensures Inv(c, s)
  {
    StartInv(s.head.packer, c.cs, c.b);
    forall i | 0 <= i < |s.relays|
      ensures RelayInv(s.head.packer.log, s.relays[i], HasNext(s, i), c.b)
      ensures LinkInv(s.head.packer.log, UpOf(s, i), s.links[i], s.relays[i])
    {
      assert InitRelay(s.relays[i]);
      if i > 0 {
        assert InitRelay(s.relays[i - 1]);
      }
    }
  }

  // ------------------------------------------------------------------ steps of a relay keep the invariant

  lemma {:induction false} CopyKeeps(log: seq<Parcel>, v: Relay, hasNext: bool, b: nat, j: nat, x: Byte)
    requires RelayInv(log, v, hasNext, b) && v.xfer.Xfer? && !v.xfer.complete
    requires j < b && x == log[v.got].buf[j]
    ensures RelayInv(log, DoCopy(v, j, x), hasNext, b)
  {
  }

  lemma {:induction false} YieldKeeps(log: seq<Parcel>, v: Relay, hasNext: bool, b: nat)
    requires RelayInv(log, v, hasNext, b) && v.pc == Yielding && v.pos < |v.meta.entries|
    ensures RelayInv(log, DoYield(v), hasNext, b)
  {
    YieldedNext(log, v.got - 1, v.pos);
  }

  lemma {:induction false} SwapKeeps(log: seq<Parcel>, v: Relay, hasNext: bool, b: nat)
    requires RelayInv(log, v, hasNext, b) && v.pc == AwaitRead && v.xfer.Xfer? && v.xfer.complete
    ensures RelayInv(log, DoSwap(v), hasNext, b)
  {
    ArrivedWhole(log[v.got].buf, v.bufs[1 - v.send], v.xfer.copied);
    if v.got > 0 {
      YieldedNextParcel(log, v.got - 1);
    } else {
      YieldedStart(log);
    }
  }

  /** The steps that change only what is pending. */
  lemma {:induction false} PendingKeeps(
    c: Config, log: seq<Parcel>, l: Station, up: Up, hasNext: bool, step: Step)
    requires RelayInv(log, l.v, hasNext, c.b) && LinkInv(log, up, l.inn, l.v) && Sized(log, c.b)
    requires RelayEnabled(c, l, up, hasNext, step)
    requires !step.CopyByte? && !step.YieldChunk? && !step.SwapBuffers?
    ensures RelayInv(log, RelayStep(c, l, up, hasNext, step).v, hasNext, c.b)
  {
    hide FullSet, Yielded;
  }

  lemma {:induction false} RelayStepKeepsOwn(
    c: Config, log: seq<Parcel>, l: Station, up: Up, hasNext: bool, step: Step)
    requires RelayInv(log, l.v, hasNext, c.b) && LinkInv(log, up, l.inn, l.v) && Sized(log, c.b)
    requires RelayEnabled(c, l, up, hasNext, step)
    ensures RelayInv(log, RelayStep(c, l, up, hasNext, step).v, hasNext, c.b)
  {
    match step {
      case CopyByte(_, j) =>
        ReadsOffered(log, up, l.inn, l.v);
        CopyKeeps(log, l.v, hasNext, c.b, j, up.bufs[l.v.xfer.msg.desc][j]);
      case YieldChunk(_) => YieldKeeps(log, l.v, hasNext, c.b);
      case SwapBuffers(_) => SwapKeeps(log, l.v, hasNext, c.b);
      case _ => PendingKeeps(c, log, l, up, hasNext, step);
    }
  }

  /** What is read is the parcel that comes next. */
  lemma {:induction false} ReadsOffered(log: seq<Parcel>, up: Up, link: Link, v: Relay)
    requires LinkInv(log, up, link, v) && v.xfer.Xfer? && !v.xfer.complete
    ensures v.got < |log| && v.xfer.msg.desc < |up.bufs| && up.bufs[v.xfer.msg.desc] == log[v.got].buf
  {
  }

  lemma {:induction false} RelayStepKeepsIn(
    c: Config, log: seq<Parcel>, l: Station, up: Up, hasNext: bool, step: Step)
    requires RelayInv(log, l.v, hasNext, c.b) && LinkInv(log, up, l.inn, l.v)
    requires RelayEnabled(c, l, up, hasNext, step)
    ensures var l' := RelayStep(c, l, up, hasNext, step); LinkInv(log, up, l'.inn, l'.v)
  {
    hide MetaOf, FullSet, Arrived, Yielded, View;
  }

  /** The step of a relay against its own invariant and that of the link it reads from. */
  lemma {:induction false} RelayStepKeeps(
    c: Config, log: seq<Parcel>, l: Station, up: Up, hasNext: bool, step: Step)
    requires RelayInv(log, l.v, hasNext, c.b) && LinkInv(log, up, l.inn, l.v) && Sized(log, c.b)
    requires RelayEnabled(c, l, up, hasNext, step)
    ensures var l' := RelayStep(c, l, up, hasNext, step);
            RelayInv(log, l'.v, hasNext, c.b) && LinkInv(log, up, l'.inn, l'.v)
  {
    hide LinkInv, Sized, Control, RelayEnabled, RelayStep;
    RelayStepKeepsOwn(c, log, l, up, hasNext, step);
    RelayStepKeepsIn(c, log, l, up, hasNext, step);
  }

  /** The step of a relay against the link behind it, read by `w`. No relay writes a buffer that
      the next rank may still be reading. */
  lemma {:induction false} RelayStepKeepsNext(
    c: Config, log: seq<Parcel>, l: Station, up: Up, step: Step, w: Relay)
    requires RelayInv(log, l.v, true, c.b) && LinkInv(log, up, l.inn, l.v)
    requires LinkInv(log, UpOfRelay(l.v), l.out, w)
    requires RelayEnabled(c, l, up, true, step)
    ensures var l' := RelayStep(c, l, up, true, step);
            LinkInv(log, UpOfRelay(l'.v), l'.out, w)
  {
    hide FullSet, Arrived, Yielded, View, MetaOf;
  }

  // ------------------------------------------------------------------ steps of rank 0 keep the invariant

  lemma {:induction false} HeadKeepsSendInv(c: Config, h: Head, link: Link, step: Step)
    requires Shaped(h.packer, c.b) && SendInv(h.packer, c.cs, c.b) && AllFitting(c.cs, c.b)
    requires HeadEnabled(c, h, link, step)
    ensures SendInv(HeadStep(c, h, link, step).h.packer, c.cs, c.b)
  {
    match step {
      case PlaceChunk => FillInv(h.packer, c.cs, c.b);
      case OfferBucket(_) => FlushInv(h.packer, c.cs, c.b);
      case OfferLast(_) => FinishInv(h.packer, c.cs, c.b);
      case _ =>
    }
  }

  /** Rank 0 never writes the buffer that the first relay may still be reading. */
  lemma {:induction false} HeadKeepsUp(c: Config, h: Head, link: Link, step: Step, w: Relay)
    requires Shaped(h.packer, c.b) && AllFitting(c.cs, c.b) && Sized(h.packer.log, c.b)
    requires LinkInv(h.packer.log, UpOfHead(h), link, w)
    requires h.returned ==> LastSent(h.packer) && Offered(h) == h.released
    requires HeadEnabled(c, h, link, step)
    ensures var l := HeadStep(c, h, link, step);
            && Shaped(l.h.packer, c.b) && Sized(l.h.packer.log, c.b) && Extends(h.packer.log, l.h.packer.log)
            && LinkInv(l.h.packer.log, UpOfHead(l.h), l.out, w)
            && (l.h.returned ==> LastSent(l.h.packer) && Offered(l.h) == l.h.released)
  {
    hide Fresh, Written, Place, MetaOf;
  }

  /** A rank only looks at parcels already in the log. */
  lemma {:induction false} RelayFrame(log: seq<Parcel>, log': seq<Parcel>, v: Relay, hasNext: bool, b: nat)
    requires RelayInv(log, v, hasNext, b) && Extends(log, log')
    ensures RelayInv(log', v, hasNext, b)
  {
    if v.got > 0 {
      assert log'[..|log|] == log;
      UnpackedFrame(log, log', v.got - 1);
    }
  }

  lemma {:induction false} LinkFrame(log: seq<Parcel>, log': seq<Parcel>, up: Up, link: Link, v: Relay)
    requires LinkInv(log, up, link, v) && Extends(log, log')
    ensures LinkInv(log', up, link, v)
  {
  }

  lemma {:induction false} HeadKeepsHead(c: Config, h: Head, link: Link, step: Step, w: Relay)
    requires HeadInv(c, h) && AllFitting(c.cs, c.b) && HeadEnabled(c, h, link, step)
    requires LinkInv(h.packer.log, UpOfHead(h), link, w)
    ensures HeadInv(c, HeadStep(c, h, link, step).h)
  {
    hide SendInv, Sized, HeadStep, HeadEnabled;
    HeadKeepsSendInv(c, h, link, step);
    HeadKeepsUp(c, h, link, step, w);
  }

  /** The log only grows, so what the other ranks rely on stays. */
  lemma {:induction false} HeadKeepsOthers(c: Config, s: State, h: Head, out: Link)
    requires RelaysInv(s, c.b) && LinksInv(s) && |s.relays| >= 1
    requires Extends(s.head.packer.log, h.packer.log)
    requires LinkInv(h.packer.log, UpOfHead(h), out, s.relays[0])
    ensures var s' := s.(head := h, links := s.links[0 := out]); RelaysInv(s', c.b) && LinksInv(s')
  {
    hide RelayInv, LinkInv, Extends;
    var s' := s.(head := h, links := s.links[0 := out]);
    forall i | 0 <= i < |s.relays|
      ensures RelayInv(h.packer.log, s.relays[i], HasNext(s', i), c.b)
      ensures LinkInv(h.packer.log, UpOf(s', i), s'.links[i], s.relays[i])
    {
      assert RelayInv(s.head.packer.log, s.relays[i], HasNext(s, i), c.b);
      RelayFrame(s.head.packer.log, h.packer.log, s.relays[i], HasNext(s, i), c.b);
      if i > 0 {
        LinkFrame(s.head.packer.log, h.packer.log, UpOf(s, i), s.links[i], s.relays[i]);
      }
    }
  }

  lemma {:induction false} HeadKeepsInv(c: Config, s: State, step: Step)
    requires Inv(c, s) && Actor(step) == None && Enabled(c, s, step)
    ensures Inv(c, Apply(c, s, step))
  {
    assert LinkInv(s.head.packer.log, UpOf(s, 0), s.links[0], s.relays[0]);
    HeadKeepsHead(c, s.head, s.links[0], step, s.relays[0]);
    HeadKeepsUp(c, s.head, s.links[0], step, s.relays[0]);
    var l := HeadStep(c, s.head, s.links[0], step);
    HeadKeepsOthers(c, s, l.h, l.out);
    hide HeadStep, HeadEnabled, RelaysInv, LinksInv, LinkInv, UpInv, SendInv;
  }

  lemma {:induction false} PutKeepsRelays(s: State, i: nat, l: Station, b: nat)
    requires RelaysInv(s, b) && i < |s.relays| && |s.links| == |s.relays| + 1
    requires RelayInv(s.head.packer.log, l.v, HasNext(s, i), b)
    ensures RelaysInv(PutStation(s, i, l), b)
  {
    var s' := PutStation(s, i, l);
    forall k | 0 <= k < |s'.relays| ensures RelayInv(s.head.packer.log, s'.relays[k], HasNext(s', k), b) {
      assert k != i ==> s'.relays[k] == s.relays[k];
      assert RelayInv(s.head.packer.log, s.relays[k], HasNext(s, k), b);
    }
  }

  /** What a changed station leaves of the parts of link `k`. */
  lemma {:induction false} PutFrame(s: State, i: nat, l: Station, k: nat)
    requires i < |s.relays| && k < |s.relays| && |s.links| == |s.relays| + 1
    ensures var s' := PutStation(s, i, l);
            && UpOf(s', k) == (if k == i + 1 then UpOfRelay(l.v) else UpOf(s, k))
            && s'.links[k] == (if k == i then l.inn else if k == i + 1 then l.out else s.links[k])
            && s'.relays[k] == (if k == i then l.v else s.relays[k])
  {
  }

  lemma {:induction false} PutKeepsLink(s: State, i: nat, l: Station, k: nat)
    requires i < |s.relays| && k < |s.relays| && |s.links| == |s.relays| + 1
    requires LinkInv(s.head.packer.log, UpOf(s, k), s.links[k], s.relays[k])
    requires LinkInv(s.head.packer.log, UpOf(s, i), l.inn, l.v)
    requires HasNext(s, i) ==> LinkInv(s.head.packer.log, UpOfRelay(l.v), l.out, s.relays[i + 1])
    ensures var s' := PutStation(s, i, l);
            LinkInv(s.head.packer.log, UpOf(s', k), s'.links[k], s'.relays[k])
  {
    PutFrame(s, i, l, k);
  }

  lemma {:induction false} PutKeepsLinks(s: State, i: nat, l: Station)
    requires LinksInv(s) && i < |s.relays|
    requires LinkInv(s.head.packer.log, UpOf(s, i), l.inn, l.v)
    requires HasNext(s, i) ==> LinkInv(s.head.packer.log, UpOfRelay(l.v), l.out, s.relays[i + 1])
    ensures LinksInv(PutStation(s, i, l))
  {
    forall k | 0 <= k < |s.relays|
      ensures var s' := PutStation(s, i, l);
              LinkInv(s.head.packer.log, UpOf(s', k), s'.links[k], s'.relays[k])
    {
      PutKeepsLink(s, i, l, k);
    }
  }

  lemma {:induction false} StationKeeps(c: Config, s: State, i: nat, step: Step)
    requires ShapedState(c, s) && RelaysInv(s, c.b) && LinksInv(s) && Sized(s.head.packer.log, c.b)
    requires Actor(step) == Some(i) && Enabled(c, s, step)
    ensures var log := s.head.packer.log;
            var l' := RelayStep(c, StationOf(s, i), UpOf(s, i), HasNext(s, i), step);
            && RelayInv(log, l'.v, HasNext(s, i), c.b) && LinkInv(log, UpOf(s, i), l'.inn, l'.v)
            && (HasNext(s, i) ==> LinkInv(log, UpOfRelay(l'.v), l'.out, s.relays[i + 1]))
  {
    var log, l := s.head.packer.log, StationOf(s, i);
    assert RelayInv(log, l.v, HasNext(s, i), c.b) && LinkInv(log, UpOf(s, i), l.inn, l.v);
    RelayStepKeeps(c, log, l, UpOf(s, i), HasNext(s, i), step);
    if HasNext(s, i) {
      assert UpOf(s, i + 1) == UpOfRelay(l.v);
      assert LinkInv(log, UpOf(s, i + 1), s.links[i + 1], s.relays[i + 1]);
      RelayStepKeepsNext(c, log, l, UpOf(s, i), step, s.relays[i + 1]);
    }
  }

  lemma {:induction false} RelaysShaped(s: State, b: nat)
    requires RelaysInv(s, b)
    ensures forall i | 0 <= i < |s.relays| :: ShapedRelay(s.relays[i], b)
  {
    forall i | 0 <= i < |s.relays| ensures ShapedRelay(s.relays[i], b) {
      assert RelayInv(s.head.packer.log, s.relays[i], HasNext(s, i), b);
    }
  }

  lemma {:induction false} RelayStepKeepsLinks(c: Config, s: State, step: Step)
    requires ShapedState(c, s) && RelaysInv(s, c.b) && LinksInv(s) && Sized(s.head.packer.log, c.b)
    requires Actor(step).Some? && Enabled(c, s, step)
    ensures RelaysInv(Apply(c, s, step), c.b) && LinksInv(Apply(c, s, step))
  {
    var i := Actor(step).value;
    StationKeeps(c, s, i, step);
    var l' := RelayStep(c, StationOf(s, i), UpOf(s, i), HasNext(s, i), step);
    PutKeepsRelays(s, i, l', c.b);
    PutKeepsLinks(s, i, l');
  }

  lemma {:induction false} RelayKeepsInv(c: Config, s: State, step: Step)
    requires Inv(c, s) && Actor(step).Some? && Enabled(c, s, step)
    ensures Inv(c, Apply(c, s, step))
  {
    RelayStepKeepsLinks(c, s, step);
    RelaysShaped(Apply(c, s, step), c.b);
  }

  lemma {:induction false} StepKeepsInv(c: Config, s: State, step: Step)
    requires Inv(c, s) && Enabled(c, s, step)
    ensures Inv(c, Apply(c, s, step))
  {
    if Actor(step).Some? {
      RelayKeepsInv(c, s, step);
    } else {
      HeadKeepsInv(c, s, step);
    }
  }

  // ------------------------------------------------------------------ runs

  ghost predicate Run(c: Config, s: State, steps: seq<Step>, s': State)
    requires ShapedState(c, s)
    decreases |steps|
  {
    if steps == [] then s' == s else
    && Enabled(c, s, steps[0])
    && ShapedState(c, Apply(c, s, steps[0]))
    && Run(c, Apply(c, s, steps[0]), steps[1..], s')
  }

  lemma {:induction false} RunInv(c: Config, s: State, steps: seq<Step>, s': State)
    requires Inv(c, s) && Run(c, s, steps, s')
    ensures Inv(c, s')
    decreases |steps|
  {
    if steps != [] {
      StepKeepsInv(c, s, steps[0]);
      RunInv(c, Apply(c, s, steps[0]), steps[1..], s');
    }
  }

  lemma {:induction false} Delivered(log: seq<Parcel>, v: Relay, hasNext: bool, b: nat)
    requires RelayInv(log, v, hasNext, b)
    ensures v.delivered <= Unpacked(log, |log|)
    ensures v.pc == Returned && v.got == |log| ==> v.delivered == Unpacked(log, |log|)
  {
    if v.got > 0 {
      YieldedPrefix(log, v.got - 1, v.pos);
      var u := Unpack(log[v.got - 1].entries, log[v.got - 1].buf);
      assert u[..|u|] == u;
    }
  }

  lemma {:induction false} ReturnedGotAll(c: Config, s: State, i: nat)
    requires Inv(c, s) && i < |s.relays| && s.relays[i].pc == Returned
    ensures LastSent(s.head.packer) && s.relays[i].got == |s.head.packer.log|
  {
    var v := s.relays[i];
    assert RelayInv(s.head.packer.log, v, HasNext(s, i), c.b);
    OnlyLastIsLast(s.head.packer, c.cs, c.b, v.got - 1);
  }

  /** End to end, in every interleaving and for every rank of the chain: the bytes delivered are a
      prefix of the chunks packed by rank 0, what was merged from them is a prefix of the weights,
      no assertion of the merger fires, and a rank that returns has yielded exactly the weights. */
  lemma {:induction false} EndToEnd(
    ws: seq<Weight>, c: Config, s: State, steps: seq<Step>, s': State, i: nat, junk: Junk)
    requires c.b >= 1 && Sendable(ws) && c.cs == Split(ws, c.b)
    requires Init(c, s) && Run(c, s, steps, s') && i < |s'.relays|
    ensures s'.relays[i].delivered <= Flatten(Buckets(c.cs, c.b))
    ensures s'.relays[i].pc == Returned ==> s'.relays[i].delivered == Flatten(Buckets(c.cs, c.b))
    ensures var m := MergeAll(s'.relays[i].delivered, c.b, junk);
            && m.Ok? && m.run.out <= ws
            && (s'.relays[i].pc == Returned ==> m.run == MergeRun(Idle, ws))
  {
    InitInv(c, s);
    RunInv(c, s, steps, s');
    var v := s'.relays[i];
    assert RelayInv(s'.head.packer.log, v, HasNext(s', i), c.b);
    Delivered(s'.head.packer.log, v, HasNext(s', i), c.b);
    if v.pc == Returned {
      ReturnedGotAll(c, s', i);
    }
    UnpackedSoFar(s'.head.packer, c.cs, c.b);
    MergeReceived(ws, c.b, junk, s'.head.packer, v.delivered);
  }

  /** The assertion of `ReadableOperation.wait_for_complete` never fires: the only notification
      that can be there carries the key of the only operation that is outstanding. Keys need not
      even be unique. */
  lemma {:induction false} NotifyKeysMatch(c: Config, s: State, steps: seq<Step>, s': State, i: nat)
    requires Init(c, s) && Run(c, s, steps, s') && i < |s'.relays|
    requires |s'.links| > i && s'.links[i].notifs != []
    ensures s'.links[i].notifs == [UpOf(s', i).key]
    ensures UpOf(s', i).offered == UpOf(s', i).released + 1
  {
    hide LinkInv, HeadInv, RelaysInv, Run;
    InitInv(c, s);
    RunInv(c, s, steps, s');
    NotifyIsOfOutstanding(s'.head.packer.log, UpOf(s', i), s'.links[i], s'.relays[i]);
  }

  lemma {:induction false} NotifyIsOfOutstanding(log: seq<Parcel>, up: Up, link: Link, v: Relay)
    requires LinkInv(log, up, link, v) && link.notifs != []
    ensures link.notifs == [up.key] && up.offered == up.released + 1
  {
  }
}
