/** Progress of the NIXL chain: every run is finite, and a run that cannot go on has finished
    everywhere. Together: every maximal run ends with all ranks returned. */
module NixlProgress {
  import opened Options
  import opened Weights
  import opened Packing
  import opened PackingLaws
  import opened Sending
  import opened SendNames
  import opened Counting
  import opened Nixl

  // ------------------------------------------------------------------ every step does work

  function PcWork(pc: Pc): nat {
    match pc
    case AtTop => 5
    case AwaitMeta => 4
    case Yielding => 3
    case AwaitNotify => 2
    case AwaitRead => 1
    case Returned => 0
  }

  function XferWork(x: Xfer, b: nat): int {
    if x.NoXfer? then b + 2 else b - |x.copied| + (if x.complete then 0 else 1)
  }

  /** What a relay has still to do before it swaps buffers. */
  function RoundWork(v: Relay, b: nat): int {
    PcWork(v.pc) + (|v.meta.entries| - v.pos) + XferWork(v.xfer, b)
  }

  function RelayWork(v: Relay, n: nat, b: nat): int {
    (n - v.got) * (2 * b + 8) + RoundWork(v, b)
  }

  function HeadWork(h: Head, c: Config): int {
    var n := |Buckets(c.cs, c.b)|;
    (|c.cs| - h.packer.next) + (n - |h.packer.log|) + (n - h.released) + (if h.returned then 0 else 1)
  }

  function RelaysWork(vs: seq<Relay>, n: nat, b: nat): int {
    if vs == [] then 0 else RelayWork(vs[0], n, b) + RelaysWork(vs[1..], n, b)
  }

  function Work(c: Config, s: State): int {
    HeadWork(s.head, c) + RelaysWork(s.relays, |Buckets(c.cs, c.b)|, c.b)
  }

  lemma {:induction false} RelayStepWorks(
    c: Config, log: seq<Parcel>, l: Station, up: Up, hasNext: bool, step: Step, n: nat)
    requires RelayInv(log, l.v, hasNext, c.b) && RelayEnabled(c, l, up, hasNext, step) && |log| <= n
    requires forall k | 0 <= k < |log| :: |log[k].entries| <= c.b
    ensures RelayWork(RelayStep(c, l, up, hasNext, step).v, n, c.b) < RelayWork(l.v, n, c.b)
  {
    var v := l.v;
    if v.xfer.Xfer? {
      SubsetCard(c.b, v.xfer.copied);
    }
    match step {
      case SwapBuffers(_) =>
        LessRound(n, v.got, 2 * c.b + 8);
        assert |v.xfer.msg.meta.entries| <= c.b;
      case _ =>
    }
  }

  lemma {:induction false} RelayWorkNonNegative(log: seq<Parcel>, v: Relay, hasNext: bool, n: nat, b: nat)
    requires RelayInv(log, v, hasNext, b) && |log| <= n
    ensures RelayWork(v, n, b) >= 0
  {
    assert RoundWork(v, b) >= 0 by {
      if v.xfer.Xfer? {
        SubsetCard(b, v.xfer.copied);
      }
    }
    NonNegativeProduct(n - v.got, 2 * b + 8);
  }

  lemma {:induction false} UpdateWork(vs: seq<Relay>, i: nat, v: Relay, n: nat, b: nat)
    requires i < |vs|
    ensures RelaysWork(vs[i := v], n, b) == RelaysWork(vs, n, b) - RelayWork(vs[i], n, b) + RelayWork(v, n, b)
  {
    if i == 0 {
      assert vs[i := v][1..] == vs[1..];
    } else {
      UpdateWork(vs[1..], i - 1, v, n, b);
      assert vs[i := v][1..] == vs[1..][i - 1 := v];
    }
  }

  lemma {:induction false} HeadStepWorks(c: Config, h: Head, link: Link, step: Step)
    requires Shaped(h.packer, c.b) && AllFitting(c.cs, c.b) && HeadEnabled(c, h, link, step)
    ensures HeadWork(HeadStep(c, h, link, step).h, c) < HeadWork(h, c)
  {
  }

  lemma {:induction false} StepWorks(c: Config, s: State, step: Step)
    requires Inv(c, s) && Enabled(c, s, step)
    ensures Work(c, Apply(c, s, step)) < Work(c, s)
  {
    var n := |Buckets(c.cs, c.b)|;
    if Actor(step).Some? {
      var i := Actor(step).value;
      var l := StationOf(s, i);
      var l' := RelayStep(c, l, UpOf(s, i), HasNext(s, i), step);
      assert RelayInv(s.head.packer.log, l.v, HasNext(s, i), c.b);
      LogPrefix(s.head.packer, c.cs, c.b);
      forall k | 0 <= k < |s.head.packer.log| ensures |s.head.packer.log[k].entries| <= c.b {
        FewEntries(s.head.packer, c.cs, c.b, k);
      }
      RelayStepWorks(c, s.head.packer.log, l, UpOf(s, i), HasNext(s, i), step, n);
      UpdateWork(s.relays, i, l'.v, n, c.b);
    } else {
      HeadStepWorks(c, s.head, s.links[0], step);
    }
  }

  lemma {:induction false} RelaysWorkNonNegative(vs: seq<Relay>, n: nat, b: nat)
    requires forall i | 0 <= i < |vs| :: RelayWork(vs[i], n, b) >= 0
    ensures RelaysWork(vs, n, b) >= 0
    decreases |vs|
  {
    if vs != [] {
      RelaysWorkNonNegative(vs[1..], n, b);
    }
  }

  lemma {:induction false} WorkNonNegative(c: Config, s: State)
    requires Inv(c, s)
    ensures Work(c, s) >= 0
  {
    var n := |Buckets(c.cs, c.b)|;
    LogPrefix(s.head.packer, c.cs, c.b);
    forall i | 0 <= i < |s.relays| ensures RelayWork(s.relays[i], n, c.b) >= 0 {
      RelayWorkNonNegative(s.head.packer.log, s.relays[i], HasNext(s, i), n, c.b);
    }
    RelaysWorkNonNegative(s.relays, n, c.b);
  }

  /** No run is longer than the work at its start. */
  lemma {:induction false} RunsAreFinite(c: Config, s: State, steps: seq<Step>, s': State)
    requires Inv(c, s) && Run(c, s, steps, s')
    ensures |steps| <= Work(c, s)
    decreases |steps|
  {
    if steps == [] {
      WorkNonNegative(c, s);
    } else {
      StepWorks(c, s, steps[0]);
      StepKeepsInv(c, s, steps[0]);
      RunsAreFinite(c, Apply(c, s, steps[0]), steps[1..], s');
    }
  }

  // ------------------------------------------------------------------ no deadlock

  ghost predicate CanStep(c: Config, s: State)
    requires ShapedState(c, s)
  {
    exists step :: Enabled(c, s, step)
  }

  predicate Finished(s: State) {
    s.head.returned && forall i | 0 <= i < |s.relays| :: s.relays[i].pc == Returned
  }

  /** A read that was started can always go on. */
  lemma {:induction false} ReadGoesOn(
    c: Config, log: seq<Parcel>, l: Station, up: Up, hasNext: bool, i: nat) returns (step: Step)
    requires RelayInv(log, l.v, hasNext, c.b) && LinkInv(log, up, l.inn, l.v) && Sized(log, c.b)
    requires l.v.xfer.Xfer? && !l.v.xfer.complete
    ensures Actor(step) == Some(i) && RelayEnabled(c, l, up, hasNext, step)
  {
    if FullSet(c.b, l.v.xfer.copied) {
      step := CompleteRead(i);
    } else {
      var j: nat :| j < c.b && j !in l.v.xfer.copied;
      assert up.offered > up.released;
      step := CopyByte(i, j);
    }
  }

  /** A relay waits for a notification that is not there. */
  predicate Waits(l: Station, hasNext: bool) {
    l.v.pc == AwaitNotify && hasNext && l.out.notifs == []
  }

  /** A relay that neither has returned nor waits for a neighbour can move. */
  lemma {:induction false} RelayGoesOn(
    c: Config, log: seq<Parcel>, l: Station, up: Up, hasNext: bool, i: nat) returns (step: Step)
    requires RelayInv(log, l.v, hasNext, c.b) && LinkInv(log, up, l.inn, l.v) && Sized(log, c.b)
    requires l.v.pc != Returned && !Waits(l, hasNext)
    requires l.v.pc == AwaitMeta ==> l.inn.queue != []
    ensures Actor(step) == Some(i) && RelayEnabled(c, l, up, hasNext, step)
  {
    match l.v.pc {
      case AtTop => step := Offer(i, 0);
      case AwaitMeta => step := ReadMessage(i);
      case Yielding => step := if l.v.pos < |l.v.meta.entries| then YieldChunk(i) else EndYield(i);
      case AwaitNotify => step := TakeNotify(i);
      case AwaitRead =>
        if l.v.xfer.complete {
          step := SwapBuffers(i);
        } else {
          step := ReadGoesOn(c, log, l, up, hasNext, i);
        }
    }
  }

  lemma {:induction false} Lift(c: Config, s: State, i: nat, step: Step)
    requires ShapedState(c, s) && i < |s.relays| && Actor(step) == Some(i)
    requires RelayEnabled(c, StationOf(s, i), UpOf(s, i), HasNext(s, i), step)
    ensures CanStep(c, s)
  {
    assert Enabled(c, s, step);
  }

  /** A relay that waits has an operation outstanding. */
  lemma {:induction false} WaitsOutstanding(log: seq<Parcel>, l: Station, b: nat)
    requires RelayInv(log, l.v, true, b) && Waits(l, true)
    ensures UpOfRelay(l.v).offered > UpOfRelay(l.v).released
  {
  }

  /** A reader that owes its predecessor a notification reads, or has something to read. */
  lemma {:induction false} Owing(log: seq<Parcel>, up: Up, link: Link, v: Relay)
    requires LinkInv(log, up, link, v) && up.offered > up.released && link.notifs == []
    ensures (v.xfer.Xfer? && !v.xfer.complete) || link.queue != []
    ensures link.queue != [] ==> v.got < |log|
  {
  }

  /** The invariant without rank 0: a relay that has returned got every parcel. */
  ghost predicate ChainInv(c: Config, s: State) {
    && ShapedState(c, s) && RelaysInv(s, c.b) && LinksInv(s) && Sized(s.head.packer.log, c.b)
    && forall i | 0 <= i < |s.relays| && s.relays[i].pc == Returned :: s.relays[i].got == |s.head.packer.log|
  }

  lemma {:induction false} ChainOf(c: Config, s: State)
    requires Inv(c, s)
    ensures ChainInv(c, s)
  {
    forall i | 0 <= i < |s.relays| && s.relays[i].pc == Returned
      ensures s.relays[i].got == |s.head.packer.log|
    {
      ReturnedGotAll(c, s, i);
    }
  }

  lemma {:induction false} StationMoves(c: Config, s: State, i: nat)
    requires ChainInv(c, s) && i < |s.relays|
    requires s.relays[i].pc != Returned && !Waits(StationOf(s, i), HasNext(s, i))
    requires s.relays[i].pc == AwaitMeta ==> s.links[i].queue != []
    ensures CanStep(c, s)
  {
    var log, l := s.head.packer.log, StationOf(s, i);
    assert RelayInv(log, l.v, HasNext(s, i), c.b) && LinkInv(log, UpOf(s, i), l.inn, l.v);
    var step := RelayGoesOn(c, log, l, UpOf(s, i), HasNext(s, i), i);
    Lift(c, s, i, step);
  }

  lemma {:induction false} StationReads(c: Config, s: State, i: nat)
    requires ChainInv(c, s) && i < |s.relays| && s.relays[i].xfer.Xfer? && !s.relays[i].xfer.complete
    ensures CanStep(c, s)
  {
    var log, l := s.head.packer.log, StationOf(s, i);
    assert RelayInv(log, l.v, HasNext(s, i), c.b) && LinkInv(log, UpOf(s, i), l.inn, l.v);
    var step := ReadGoesOn(c, log, l, UpOf(s, i), HasNext(s, i), i);
    Lift(c, s, i, step);
  }

  lemma {:induction false} WaitsForNext(s: State, i: nat, b: nat)
    requires RelaysInv(s, b) && i < |s.relays| && |s.links| == |s.relays| + 1
    requires Waits(StationOf(s, i), HasNext(s, i))
    ensures i + 1 < |s.relays| && s.links[i + 1].notifs == []
    ensures UpOf(s, i + 1).offered > UpOf(s, i + 1).released
  {
    assert RelayInv(s.head.packer.log, s.relays[i], HasNext(s, i), b);
    WaitsOutstanding(s.head.packer.log, StationOf(s, i), b);
  }

  lemma {:induction false} StationGoesOn(c: Config, s: State, i: nat)
    requires ChainInv(c, s) && i < |s.relays| && !Waits(StationOf(s, i), HasNext(s, i))
    requires UpOf(s, i).offered > UpOf(s, i).released && s.links[i].notifs == []
    ensures CanStep(c, s)
  {
    var l := StationOf(s, i);
    assert LinkInv(s.head.packer.log, UpOf(s, i), l.inn, l.v);
    Owing(s.head.packer.log, UpOf(s, i), l.inn, l.v);
    if l.v.xfer.Xfer? && !l.v.xfer.complete {
      StationReads(c, s, i);
    } else {
      StationMoves(c, s, i);
    }
  }

  /** If an operation is outstanding and its notification is not there, someone further down the
      chain can move. */
  lemma {:induction false} Climb(c: Config, s: State, i: nat)
    requires ChainInv(c, s) && i < |s.relays|
    requires UpOf(s, i).offered > UpOf(s, i).released && s.links[i].notifs == []
    ensures CanStep(c, s)
    decreases |s.relays| - i
  {
    if Waits(StationOf(s, i), HasNext(s, i)) {
      WaitsForNext(s, i, c.b);
      Climb(c, s, i + 1);
    } else {
      StationGoesOn(c, s, i);
    }
  }

  lemma {:induction false} HeadMoves(c: Config, h: Head, link: Link) returns (step: Step)
    requires HeadInv(c, h) && !h.returned && h.packer.next <= |c.cs| && AllNamesDiffer(Buckets(c.cs, c.b))
    requires Offered(h) > h.released ==> link.notifs != []
    ensures Actor(step) == None && HeadEnabled(c, h, link, step)
  {
    var p := h.packer;
    if !LastSent(p) && CanFill(p, c.cs, c.b) {
      FreshInMemory(p, c.cs, c.b);
      step := PlaceChunk;
    } else if Offered(h) > h.released {
      step := AwaitReadable;
    } else if LastSent(p) {
      step := HeadReturns;
    } else if p.next < |c.cs| {
      step := OfferBucket(0);
    } else {
      step := OfferLast(0);
    }
  }

  lemma {:induction false} HeadGoesOn(c: Config, s: State)
    requires Inv(c, s) && !s.head.returned && AllNamesDiffer(Buckets(c.cs, c.b))
    ensures CanStep(c, s)
  {
    if Offered(s.head) > s.head.released && s.links[0].notifs == [] {
      ChainOf(c, s);
      Climb(c, s, 0);
    } else {
      assert LinkInv(s.head.packer.log, UpOf(s, 0), s.links[0], s.relays[0]);
      var step := HeadMoves(c, s.head, s.links[0]);
      assert Enabled(c, s, step);
    }
  }

  /** What a rank that has returned leaves to the next one: every bucket, all reads completed. */
  lemma {:induction false} RelayReturned(log: seq<Parcel>, v: Relay, b: nat)
    requires RelayInv(log, v, true, b) && v.pc == Returned && v.got == |log|
    ensures UpOfRelay(v).offered == |log| && UpOfRelay(v).released == |log|
  {
  }

  lemma {:induction false} AllRead(log: seq<Parcel>, up: Up, link: Link, v: Relay)
    requires LinkInv(log, up, link, v) && up.released == |log| == up.offered
    ensures Reads(v) == |log| && Completed(v) == |log|
  {
  }

  lemma {:induction false} NothingAwaited(log: seq<Parcel>, v: Relay, hasNext: bool, b: nat)
    requires RelayInv(log, v, hasNext, b) && Reads(v) == |log| && log != [] && log[|log| - 1].isLast
    ensures v.pc != AwaitMeta
  {
  }

  /** Everything above relay `i` has returned, so every bucket was read by it. */
  lemma {:induction false} FirstUnfinished(c: Config, s: State, i: nat)
    requires ChainInv(c, s) && i < |s.relays| && s.relays[i].pc != Returned
    requires LastSent(s.head.packer) && Offered(s.head) == s.head.released
    requires i > 0 ==> s.relays[i - 1].pc == Returned
    ensures CanStep(c, s)
  {
    var log, l := s.head.packer.log, StationOf(s, i);
    if i > 0 {
      assert RelayInv(log, s.relays[i - 1], HasNext(s, i - 1), c.b);
      RelayReturned(log, s.relays[i - 1], c.b);
    }
    assert LinkInv(log, UpOf(s, i), l.inn, l.v) && RelayInv(log, l.v, HasNext(s, i), c.b);
    AllRead(log, UpOf(s, i), l.inn, l.v);
    NothingAwaited(log, l.v, HasNext(s, i), c.b);
    if Waits(l, HasNext(s, i)) {
      WaitsForNext(s, i, c.b);
      Climb(c, s, i + 1);
    } else {
      StationMoves(c, s, i);
    }
  }

  lemma {:induction false} FindUnfinished(vs: seq<Relay>) returns (i: nat)
    requires exists k :: 0 <= k < |vs| && vs[k].pc != Returned
    ensures i < |vs| && vs[i].pc != Returned && (i > 0 ==> vs[i - 1].pc == Returned)
  {
    i := 0;
    while vs[i].pc == Returned
      invariant i < |vs|
      invariant forall k | 0 <= k < i :: vs[k].pc == Returned
      decreases |vs| - i
    {
      i := i + 1;
    }
  }

  lemma {:induction false} UnfinishedGoesOn(c: Config, s: State)
    requires Inv(c, s) && !Finished(s) && AllNamesDiffer(Buckets(c.cs, c.b))
    ensures CanStep(c, s)
  {
    if !s.head.returned {
      HeadGoesOn(c, s);
    } else {
      var i := FindUnfinished(s.relays);
      ChainOf(c, s);
      FirstUnfinished(c, s, i);
    }
  }

  /** Where the names within each bucket differ, every reachable state in which not every rank has returned
      has an enabled step. */
  lemma {:induction false} NoDeadlock(c: Config, s: State, steps: seq<Step>, s': State)
    requires Init(c, s) && Run(c, s, steps, s') && !Finished(s') && AllNamesDiffer(Buckets(c.cs, c.b))
    ensures ShapedState(c, s') && CanStep(c, s')
  {
    InitInv(c, s);
    RunInv(c, s, steps, s');
    UnfinishedGoesOn(c, s');
  }

  /** Then from every state of a run it can be carried on until all ranks have returned. */
  lemma {:induction false} RunsToTheEnd(c: Config, s: State) returns (steps: seq<Step>, s': State)
    requires Inv(c, s) && AllNamesDiffer(Buckets(c.cs, c.b))
    ensures Run(c, s, steps, s') && Finished(s')
    decreases Work(c, s)
  {
    hide HeadInv, RelaysInv, LinksInv, Work;
    if Finished(s) {
      steps, s' := [], s;
    } else {
      UnfinishedGoesOn(c, s);
      var step :| Enabled(c, s, step);
      StepWorks(c, s, step);
      StepKeepsInv(c, s, step);
      WorkNonNegative(c, Apply(c, s, step));
      var rest;
      rest, s' := RunsToTheEnd(c, Apply(c, s, step));
      steps := [step] + rest;
      assert steps[1..] == rest;
    }
  }

  /** A chain of any length can start, on any weights. */
  lemma {:induction false} CanStart(c: Config, relays: nat, junk: seq<Byte>) returns (s: State)
    requires relays >= 1 && AllFitting(c.cs, c.b) && |junk| == c.b
    ensures Init(c, s) && |s.relays| == relays
  {
    var head := Head(Packer(0, [], 0, [junk, junk], 0, []), 0, 0, false);
    var relay := Relay([junk, junk], 0, 0, Meta([], false), 0, AwaitMeta, 0, 0, 0, NoXfer, []);
    s := State(head, seq(relays, i => relay), seq(relays + 1, i => Link([], [])));
  }

  /** Every transfer of weights of different names can be completed, and then every rank has yielded exactly
      the weights. */
  lemma {:induction false} SomeRunDelivers(
    ws: seq<Weight>, c: Config, relays: nat, junk: seq<Byte>, fill: Junk)
    returns (s: State, steps: seq<Step>, s': State)
    requires c.b >= 1 && Sendable(ws) && DistinctNames(ws) && c.cs == Split(ws, c.b)
    requires relays >= 1 && |junk| == c.b
    ensures Init(c, s) && Run(c, s, steps, s') && Finished(s') && |s'.relays| == relays
    ensures forall i | 0 <= i < relays :: MergeAll(s'.relays[i].delivered, c.b, fill) == Ok(MergeRun(Idle, ws))
  {
    hide HeadInv, RelaysInv, LinksInv, Init;
    SplitFits(ws, c.b);
    BucketNames(ws, c.b);
    s := CanStart(c, relays, junk);
    InitInv(c, s);
    steps, s' := RunsToTheEnd(c, s);
    SameRanks(c, s, steps, s');
    forall i | 0 <= i < relays ensures MergeAll(s'.relays[i].delivered, c.b, fill) == Ok(MergeRun(Idle, ws)) {
      EndToEnd(ws, c, s, steps, s', i, fill);
    }
  }

  lemma {:induction false} SameRanks(c: Config, s: State, steps: seq<Step>, s': State)
    requires Inv(c, s) && Run(c, s, steps, s')
    ensures |s'.relays| == |s.relays|
    decreases |steps|
  {
    hide HeadInv, RelaysInv, LinksInv;
    if steps != [] {
      StepKeepsInv(c, s, steps[0]);
      SameRanks(c, Apply(c, s, steps[0]), steps[1..], s');
    }
  }

  // ------------------------------------------------------------------ the assertion of rank 0

  lemma {:induction false} HeadStepKeepsNames(c: Config, h: Head, link: Link, step: Step)
    requires HeadInv(c, h) && AllFitting(c.cs, c.b) && NamesKept(h.packer) && HeadEnabled(c, h, link, step)
    ensures NamesKept(HeadStep(c, h, link, step).h.packer)
  {
    hide SendInv, NamesKept, Fresh;
    HandOutNames(h.packer);
    if step.PlaceChunk? {
      assert Fitting(c.cs[h.packer.next], c.b);
      FillNames(h.packer, c.cs, c.b);
    }
  }

  lemma {:induction false} StepKeepsNames(c: Config, s: State, step: Step)
    requires Inv(c, s) && NamesKept(s.head.packer) && Enabled(c, s, step)
    ensures NamesKept(Apply(c, s, step).head.packer)
  {
    hide RelaysInv, LinksInv, NamesKept, HeadInv, RelayEnabled, RelayStep, HeadEnabled, HeadStep;
    if Actor(step) == None {
      HeadStepKeepsNames(c, s.head, s.links[0], step);
    }
  }

  lemma {:induction false} RunKeepsNames(c: Config, s: State, steps: seq<Step>, s': State)
    requires Inv(c, s) && NamesKept(s.head.packer) && Run(c, s, steps, s')
    ensures Inv(c, s') && NamesKept(s'.head.packer)
    decreases |steps|
  {
    hide NamesKept, HeadInv, RelaysInv, LinksInv, Enabled;
    if steps != [] {
      StepKeepsInv(c, s, steps[0]);
      StepKeepsNames(c, s, steps[0]);
      RunKeepsNames(c, Apply(c, s, steps[0]), steps[1..], s');
    }
  }

  /** In every reachable state the assertion of rank 0 holds of the next chunk, where the names within each
      bucket differ. */
  lemma {:induction false} NameAssertionHolds(c: Config, s: State, steps: seq<Step>, s': State)
    requires Init(c, s) && Run(c, s, steps, s') && AllNamesDiffer(Buckets(c.cs, c.b))
    ensures CanFill(s'.head.packer, c.cs, c.b) ==> Fresh(s'.head.packer, c.cs)
  {
    hide SendInv, RelaysInv, LinksInv, Fresh, AllNamesDiffer;
    InitInv(c, s);
    RunInv(c, s, steps, s');
    if CanFill(s'.head.packer, c.cs, c.b) {
      FreshInMemory(s'.head.packer, c.cs, c.b);
    }
  }

  /** Otherwise rank 0 never returns: it fails on the way. */
  lemma {:induction false} ReturnMeansDiffer(c: Config, s: State, steps: seq<Step>, s': State)
    requires Init(c, s) && Run(c, s, steps, s') && s'.head.returned
    ensures AllNamesDiffer(Buckets(c.cs, c.b))
  {
    hide SendInv, RelaysInv, LinksInv, NamesKept, AllNamesDiffer;
    InitInv(c, s);
    StartNames(s.head.packer);
    RunKeepsNames(c, s, steps, s');
    KeptMeansDiffer(s'.head.packer, c.cs, c.b);
  }

  ghost predicate CanFinish(c: Config, s: State)
    requires ShapedState(c, s)
  {
    exists steps: seq<Step>, s': State :: Run(c, s, steps, s') && Finished(s')
  }

  /** A transfer can be completed exactly when the names within each bucket differ. */
  lemma {:induction false} FinishesExactly(c: Config, s: State)
    requires Init(c, s)
    ensures CanFinish(c, s) <==> AllNamesDiffer(Buckets(c.cs, c.b))
  {
    hide SendInv, RelaysInv, LinksInv, AllNamesDiffer;
    InitInv(c, s);
    if AllNamesDiffer(Buckets(c.cs, c.b)) {
      var steps, s' := RunsToTheEnd(c, s);
    }
    if CanFinish(c, s) {
      var steps, s' :| Run(c, s, steps, s') && Finished(s');
      ReturnMeansDiffer(c, s, steps, s');
    }
  }

  /** Two weights of a byte each under one name never arrive. */
  lemma {:induction false} NamesakesNeverArrive(ws: seq<Weight>, c: Config, s: State)
    requires |ws| == 2 && ws[0].name == ws[1].name && |ws[0].data| == |ws[1].data| == 1
    requires c.b >= 2 && c.cs == Split(ws, c.b) && Init(c, s)
    ensures !CanFinish(c, s)
  {
    NamesakesShare(ws, c.b);
    FinishesExactly(c, s);
  }
}
