/** As many groups as layers: from the second on, each group is copied out before its tensors are pushed,
    and the tensors stay on the device. What holds for any number of groups follows. */
module OffloadEarly {
  import opened Arith
  import opened Options
  import opened OffloadModel
  import opened OffloadRuns

  /** The constructor's settings with as many groups as layers. */
  ghost predicate TightWindow(c: Config) {
    && 1 <= c.groups == c.layers
    && (forall k: nat :: k in c.window <==> k < c.groups)
    && (forall k: nat | k < c.groups :: c.window[k] == k)
  }

  lemma {:induction false} WindowIsTight(groups: nat, window: map<nat, int>)
    requires 1 <= groups
    requires forall k: nat :: k in window <==> k < groups
    requires forall k: nat | k < groups :: window[k] == WindowEnd(groups, groups, k)
    ensures TightWindow(Config(groups, groups, window))
  {
    assert groups / groups == 1 && groups % groups == 0;
  }

  /** How many groups are really offloaded: the first, between the first layer and the last commit. */
  ghost function EarlyOff(h: Tables): nat {
    if h.current == 0 then 0 else 1
  }

  /** The first groups with a copy, possibly an empty one. */
  ghost function EarlyCopies(c: Config, r: Run): nat {
    if r.forward && r.h.current > 0 then r.h.current + 1 else r.h.current
  }

  /** The references of earlier groups are dropped, though their tensors stay. */
  ghost predicate EarlyHeld(h: Tables, pushed: map<Slot, Tensor>, forward: bool) {
    if forward then HeldInv(h, pushed, h.current) else forall s | s in h.bufs :: h.bufs[s] == None
  }

  ghost predicate EarlyInv(c: Config, r: Run) {
    && TightWindow(c)
    && r.h.offloaded == r.h.current
    && (if r.forward then r.h.current < c.layers else r.h.current <= c.layers && r.h.count == 0)
    && SameKeySameData(r.pushed)
    && KeptInv(r.h, r.pushed, r.live, EarlyOff(r.h), r.forward)
    && Mapped(r.h, EarlyCopies(c, r))
    && BufsInv(c, r)
    && EarlyHeld(r.h, r.pushed, r.forward)
    && (if r.forward then
          && r.live == r.pushed.Keys
          && (forall s | s in r.pushed :: s.group < r.h.current || (s.group == r.h.current && s.index < r.h.count))
        else forall s | s in r.live :: s.group <= r.h.current)
    && FirstAfterPushes(r.h)
  }

  /** The first group is copied out after its pushes. */
  ghost predicate FirstAfterPushes(h: Tables) {
    0 in h.mapping ==> 0 in h.streams.outAfter && h.streams.outAfter[0] >= 1
  }

  lemma {:induction false} EarlyInitial(c: Config, h: Tables)
    requires TightWindow(c) && Initial(h)
    ensures EarlyInv(c, Run(h, true, map[], {}))
  {
  }

  // ------------------------------------------------------------------ push and pop

  lemma {:induction false} EarlyPush(c: Config, r: Run, t: Tensor, r': Run, out: Outcome)
    requires EarlyInv(c, r) && Legal(c, r, PushTensor(t)) && Next(c, r, PushTensor(t), r', out)
    ensures out == Fine && EarlyInv(c, r')
  {
    hide KeptInv, SameKeySameData;
    var s := Slot(r.h.current, r.h.count);
    assert s !in r.pushed;
    LiveIsKept(r.h, r.pushed, r.live, EarlyOff(r.h), true);
    PushKept(c, r.h, r.pushed, r.live, EarlyOff(r.h), t);
    PushKeepsKeys(r.pushed, s, t);
  }

  lemma {:induction false} LiveIsKept(
    h: Tables, pushed: map<Slot, Tensor>, live: set<Slot>, off: nat, exact: bool)
    requires KeptInv(h, pushed, live, off, exact)
    ensures h.states.Keys == live <= pushed.Keys
  {
  }

  lemma {:induction false} EarlyPopReturns(c: Config, r: Run, s: Slot)
    requires EarlyInv(c, r) && Legal(c, r, PopTensor(s))
    ensures Faithful(r, PopTensor(s), Fine)
  {
    assert Kept(r.h, s, r.pushed[s], EarlyOff(r.h), false);
  }

  lemma {:induction false} EarlyPop(c: Config, r: Run, s: Slot, r': Run, out: Outcome)
    requires EarlyInv(c, r) && Legal(c, r, PopTensor(s)) && Next(c, r, PopTensor(s), r', out)
    ensures out == Fine && EarlyInv(c, r')
  {
    hide KeptInv, SameKeySameData;
    EarlyPopReturns(c, r, s);
    PopKept(r.h, r.pushed, r.live, EarlyOff(r.h), s);
  }

  // ------------------------------------------------------------------ commits

  /** Copying out a group without tensors changes none. */
  lemma {:induction false} OffloadNothing(
    h: Tables, h': Tables, pushed: map<Slot, Tensor>, live: set<Slot>, off: nat, g: nat)
    requires KeptInv(h, pushed, live, off, true) && BulkOffloaded(h, h', g) && g >= off
    requires forall s | s in live :: s.group != g
    ensures KeptInv(h', pushed, live, off, true) && h'.states == h.states && h'.mapping[g] == map[]
  {
    assert h'.states == h.states;
    assert h'.mapping[g].Keys == {};
    forall s | s in live ensures Kept(h', s, pushed[s], off, true) {
      assert Kept(h, s, pushed[s], off, true);
    }
  }

  /** Reloading a group that was not offloaded changes no tensor. */
  lemma {:induction false} ReloadNothing(
    h: Tables, h': Tables, pushed: map<Slot, Tensor>, live: set<Slot>, off: nat, g: nat)
    requires KeptInv(h, pushed, live, off, false) && BulkReloaded(h, h', g) && g >= off
    ensures KeptInv(h', pushed, live, off, false)
  {
    forall s | s in live ensures Kept(h', s, pushed[s], off, false) {
      assert Kept(h, s, pushed[s], off, false);
    }
  }

  /** The state before the window map is looked up: the first group is offloaded by now. */
  ghost predicate EarlyPrepared(c: Config, r: Run, a: Tables) {
    && TightWindow(c)
    && a.offloaded == a.current == r.h.current < c.layers
    && SameKeySameData(r.pushed)
    && KeptInv(a, r.pushed, r.live, 1, true)
    && Mapped(a, a.current + 1)
    && r.live == r.pushed.Keys
    && BufsInv(c, r.(h := a)) && HeldInv(a, r.pushed, a.current)
    && (forall s | s in r.pushed :: s.group <= a.current)
    && FirstAfterPushes(a)
  }

  lemma {:induction false} EarlyFirst(c: Config, r: Run, a: Tables)
    requires EarlyInv(c, r) && r.forward && r.h.current == 0
    requires BulkOffloaded(OutWaits(r.h), a, 0)
    ensures EarlyPrepared(c, r, a)
  {
    hide KeptInv, SameKeySameData, HostOf, Replaced;
    SameKept(r.h, OutWaits(r.h), r.pushed, r.live, 0, true);
    OffloadKept(OutWaits(r.h), a, r.pushed, r.live, 0);
  }

  lemma {:induction false} EarlyPrepare(c: Config, r: Run, a: Tables)
    requires EarlyInv(c, r) && r.forward
    requires if r.h.current == 0 then BulkOffloaded(OutWaits(r.h), a, 0) else a == r.h
    ensures EarlyPrepared(c, r, a)
  {
    hide KeptInv, SameKeySameData, BulkOffloaded;
    if r.h.current == 0 {
      EarlyFirst(c, r, a);
    }
  }

  lemma {:induction false} EarlyLast(c: Config, r: Run, a: Tables)
    requires EarlyPrepared(c, r, a) && a.current == c.groups - 1
    ensures EarlyInv(c, r.(h := NextGroup(Dropped(a, a.current).(offloaded := c.groups)), forward := false))
  {
    hide KeptInv, SameKeySameData;
    var h' := NextGroup(Dropped(a, a.current).(offloaded := c.groups));
    SameKept(a, h', r.pushed, r.live, 1, true);
  }

  /** The tables after the next group, which has no tensors yet, was copied out. */
  lemma {:induction false} EarlyCopyTables(a: Tables, b: Tables, pushed: map<Slot, Tensor>, live: set<Slot>)
    requires KeptInv(a, pushed, live, 1, true) && Mapped(a, a.current + 1) && FirstAfterPushes(a)
    requires forall s | s in live :: s.group <= a.current
    requires HeldInv(a, pushed, a.current) && a.offloaded == a.current
    requires BulkOffloaded(Dropped(a, a.current), b, a.current + 1)
    ensures var h' := NextGroup(b.(offloaded := a.current + 1));
            && KeptInv(h', pushed, live, 1, true) && Mapped(h', a.current + 2) && FirstAfterPushes(h')
            && h'.current == h'.offloaded == a.current + 1 == b.current + 1
            && h'.bufs.Keys == a.bufs.Keys && h'.count == 0 && HeldInv(h', pushed, a.current + 1)
  {
    NextKeepsBufs(a, b, pushed);
    var d := Dropped(a, a.current);
    var h' := NextGroup(b.(offloaded := a.current + 1));
    assert KeptInv(h', pushed, live, 1, true) by {
      hide KeptInv, Replaced, HostOf;
      SameKept(a, d, pushed, live, 1, true);
      OffloadNothing(d, b, pushed, live, 1, a.current + 1);
      SameKept(b, h', pushed, live, 1, true);
    }
  }

  lemma {:induction false} EarlyNext(c: Config, r: Run, a: Tables, b: Tables)
    requires EarlyPrepared(c, r, a) && a.current < c.groups - 1 && r.forward
    requires BulkOffloaded(Dropped(a, a.current), b, a.current + 1)
    ensures EarlyInv(c, r.(h := NextGroup(b.(offloaded := a.current + 1)))) && b.current == a.current
  {
    hide KeptInv, SameKeySameData, BulkOffloaded, Mapped, FirstAfterPushes;
    EarlyCopyTables(a, b, r.pushed, r.live);
    var h' := NextGroup(b.(offloaded := a.current + 1));
    assert forall s :: s in h'.bufs <==> s in a.bufs.Keys;
  }

  lemma {:induction false} EarlyWindow(c: Config, r: Run, a: Tables, r': Run, out: Outcome)
    requires EarlyPrepared(c, r, a) && r.forward && WindowForward(c, a, r'.h, out)
    requires out == Fine ==> r' == r.(h := r'.h, forward := r'.h.current < c.layers)
    ensures out == Fine && EarlyInv(c, r')
  {
    hide KeptInv, SameKeySameData, EarlyInv, BulkOffloaded;
    if a.current == c.groups - 1 {
      EarlyLast(c, r, a);
    } else {
      StillOnDevice(a, r.pushed, r.live, 1, true, a.current + 1);
      var b: Tables :| BulkOffloaded(Dropped(a, a.offloaded), b, a.offloaded + 1)
                       && r'.h == NextGroup(b.(offloaded := a.offloaded + 1));
      EarlyNext(c, r, a, b);
    }
  }

  lemma {:induction false} EarlyForward(c: Config, r: Run, r': Run, out: Outcome)
    requires EarlyInv(c, r) && Legal(c, r, ForwardCommit) && Next(c, r, ForwardCommit, r', out)
    ensures out == Fine && EarlyInv(c, r')
  {
    hide KeptInv, BulkOffloaded, WindowForward, EarlyPrepared;
    if r.h.current == 0 {
      StillOnDevice(r.h, r.pushed, r.live, 0, true, 0);
    }
    var a: Tables :| (if r.h.current == 0 then BulkOffloaded(OutWaits(r.h), a, 0) else a == r.h)
                     && WindowForward(c, a, r'.h, out);
    EarlyPrepare(c, r, a);
    EarlyWindow(c, r, a, r', out);
  }

  // ------------------------------------------------------------------ the way back

  /** The copies of the group to reload are there: group 0 was offloaded, any other has no use of them. */
  lemma {:induction false} EarlyCopiesPresent(
    h: Tables, pushed: map<Slot, Tensor>, live: set<Slot>, g: nat)
    requires KeptInv(h, pushed, live, 1, false) && g in h.mapping
    ensures CopiesPresent(h.states, g, h.mapping[g])
  {
    forall s | s in h.states && s.group == g && h.states[s].Offloaded? ensures h.states[s].key in h.mapping[g] {
      assert Kept(h, s, pushed[s], 1, false);
    }
  }

  lemma {:induction false} EarlyReloadStates(
    h: Tables, b: Tables, pushed: map<Slot, Tensor>, live: set<Slot>)
    requires h.current > 0 && KeptInv(h, pushed, live, 1, false)
    requires BulkReloaded(ReloadWaits(h.(current := h.current - 1)), b, h.current - 1)
    ensures KeptInv(b, pushed, live, if h.current == 1 then 0 else 1, false)
  {
    hide KeptInv, BulkReloaded;
    var w := ReloadWaits(h.(current := h.current - 1));
    SameKept(h, w, pushed, live, 1, false);
    if h.current == 1 {
      ReloadKept(w, b, pushed, live, 0);
    } else {
      ReloadNothing(w, b, pushed, live, 1, h.current - 1);
    }
  }

  lemma {:induction false} EarlyReloadTables(h: Tables, b: Tables)
    requires h.current > 0 && Mapped(h, h.current) && FirstAfterPushes(h)
    requires BulkReloaded(ReloadWaits(h.(current := h.current - 1)), b, h.current - 1)
    ensures Mapped(b, h.current - 1) && FirstAfterPushes(b)
    ensures b.current == h.current - 1 && b.count == h.count && b.offloaded == h.offloaded && b.bufs == h.bufs
  {
  }

  lemma {:induction false} EarlyReload(c: Config, r: Run, b: Tables, r': Run)
    requires EarlyInv(c, r) && !r.forward && r.h.current > 0
    requires forall s | s in r.live :: s.group < r.h.current
    requires BulkReloaded(ReloadWaits(r.h.(current := r.h.current - 1)), b, r.h.current - 1)
    requires r' == r.(h := EndOfPass(b.(offloaded := if r.h.offloaded > 1 then r.h.offloaded - 1 else r.h.offloaded)))
    ensures EarlyInv(c, r')
  {
    hide KeptInv, BulkReloaded, SameKeySameData;
    EarlyReloadStates(r.h, b, r.pushed, r.live);
    EarlyReloadTables(r.h, b);
    SameKept(b, r'.h, r.pushed, r.live, EarlyOff(r'.h), false);
  }

  lemma {:induction false} EarlyBackward(c: Config, r: Run, r': Run, out: Outcome)
    requires EarlyInv(c, r) && Legal(c, r, BackwardCommit) && Next(c, r, BackwardCommit, r', out)
    ensures out == Fine && EarlyInv(c, r')
  {
    hide KeptInv, BulkReloaded, SameKeySameData;
    EarlyCopiesPresent(r.h, r.pushed, r.live, r.h.current - 1);
    var a := r.h.(current := r.h.current - 1);
    var b: Tables :| BulkReloaded(ReloadWaits(a), b, r.h.offloaded - 1)
      && r'.h == EndOfPass(b.(offloaded := if r.h.offloaded > 1 then r.h.offloaded - 1 else r.h.offloaded));
    EarlyReload(c, r, b, r');
  }

  lemma {:induction false} EarlyBackToStart(c: Config, r: Run)
    requires EarlyInv(c, r) && Legal(c, r, NextPass)
    ensures Initial(r.h)
  {
    assert r.h.states.Keys == {};
    assert forall s :: s !in r.h.bufs;
    assert r.h.bufs.Keys == {};
    assert r.h.mapping.Keys == {};
  }

  // ------------------------------------------------------------------ whole runs

  lemma {:induction false} EarlyStep(c: Config, r: Run, e: Event, r': Run, out: Outcome)
    requires EarlyInv(c, r) && Legal(c, r, e) && Next(c, r, e, r', out)
    ensures EarlyInv(c, r') && Faithful(r, e, out)
  {
    hide EarlyInv, CommitForward, CommitBackward;
    match e
    case PushTensor(t) => EarlyPush(c, r, t, r', out);
    case ForwardCommit => EarlyForward(c, r, r', out);
    case BackwardCommit => EarlyBackward(c, r, r', out);
    case PopTensor(s) =>
      EarlyPop(c, r, s, r', out);
      EarlyPopReturns(c, r, s);
    case NextPass =>
      EarlyBackToStart(c, r);
      EarlyTight(c, r);
      EarlyInitial(c, r'.h);
  }

  lemma {:induction false} EarlyTight(c: Config, r: Run)
    requires EarlyInv(c, r)
    ensures TightWindow(c)
  {
  }

  lemma {:induction false} EarlyRun(c: Config, runs: seq<Run>, events: seq<Event>, outs: seq<Outcome>, n: nat)
    requires TightWindow(c) && IsRun(c, runs, events, outs) && n <= |events|
    ensures EarlyInv(c, runs[n])
    ensures forall i | 0 <= i < n :: Faithful(runs[i], events[i], outs[i])
  {
    hide EarlyInv, Legal, Next, Faithful;
    if n == 0 {
      EarlyInitial(c, runs[0].h);
    } else {
      EarlyRun(c, runs, events, outs, n - 1);
      RunStep(c, runs, events, outs, n - 1);
      EarlyStep(c, runs[n - 1], events[n - 1], runs[n], outs[n - 1]);
    }
  }

  /** For every number of groups up to the number of layers, and every run: no assert and no look-up
      fails, each pop returns what was pushed, and each pass ends where it began. */
  lemma {:induction false} EveryRunIsFaithful(
    groups: nat, layers: nat, window: map<nat, int>, runs: seq<Run>, events: seq<Event>, outs: seq<Outcome>)
    requires 1 <= groups <= layers
    requires forall k: nat :: k in window <==> k < groups
    requires forall k: nat | k < groups :: window[k] == WindowEnd(groups, layers, k)
    requires IsRun(Config(groups, layers, window), runs, events, outs)
    ensures forall i | 0 <= i < |events| :: Faithful(runs[i], events[i], outs[i])
  {
    hide Faithful, IsRun, WindowEnd;
    var c := Config(groups, layers, window);
    if groups < layers {
      WindowIsGood(groups, layers, window);
      LaggingRunIsFaithful(c, runs, events, outs);
    } else {
      WindowIsTight(groups, window);
      RunLengths(c, runs, events, outs);
      EarlyRun(c, runs, events, outs, |events|);
    }
  }

  lemma {:induction false} RunLengths(c: Config, runs: seq<Run>, events: seq<Event>, outs: seq<Outcome>)
    requires IsRun(c, runs, events, outs)
    ensures |runs| == |events| + 1 && |outs| == |events|
  {
  }

  // ------------------------------------------------------------------ the order of copy-out and pushes

  /** In every state of every run, what was copied out was copied out after it was pushed. */
  ghost predicate AlwaysAfterPushes(c: Config) {
    forall runs: seq<Run>, events: seq<Event>, outs: seq<Outcome>, n: nat ::
      IsRun(c, runs, events, outs) && n < |runs| ==> CopiedAfterPushes(runs[n].h)
  }

  lemma {:induction false} LaggingIsAfterPushes(
    c: Config, runs: seq<Run>, events: seq<Event>, outs: seq<Outcome>, n: nat)
    requires GoodWindow(c) && IsRun(c, runs, events, outs) && n < |runs|
    ensures CopiedAfterPushes(runs[n].h)
  {
    EveryRunIsInOrder(c, runs, events, outs, n);
  }

  /** A single group for a single layer is copied out after its pushes. */
  lemma {:induction false} OneGroupIsAfterPushes(
    c: Config, runs: seq<Run>, events: seq<Event>, outs: seq<Outcome>, n: nat)
    requires TightWindow(c) && c.groups == 1 && IsRun(c, runs, events, outs) && n < |runs|
    ensures CopiedAfterPushes(runs[n].h)
  {
    hide KeptInv, SameKeySameData, Legal, Next;
    EarlyRun(c, runs, events, outs, n);
  }

  /** The tables after the first commit of a pass that pushes nothing. */
  function FirstCommit(h: Tables): Tables {
    var a := OutWaits(h).(mapping := map[0 := map[]], streams := h.streams.(
      outSees := 1, outAfter := h.streams.outAfter[0 := 1], computeSeesOut := h.streams.computeSeesOut - {0},
      reloadSeesOut := h.streams.reloadSeesOut - {0}, inIssued := h.streams.inIssued - {0}));
    var d := Dropped(a, 0);
    NextGroup(d.(offloaded := 1, mapping := d.mapping[1 := map[]], streams := d.streams.(
      outAfter := d.streams.outAfter[1 := 1], computeSeesOut := d.streams.computeSeesOut - {1},
      reloadSeesOut := d.streams.reloadSeesOut - {1}, inIssued := d.streams.inIssued - {1})))
  }

  lemma {:induction false} FirstCommitIs(c: Config, h: Tables)
    requires TightWindow(c) && c.groups >= 2 && Initial(h)
    ensures CommitForward(c, h, FirstCommit(h), Fine)
    ensures !CopiedAfterPushes(FirstCommit(h))
  {
    var a := OutWaits(h).(mapping := map[0 := map[]], streams := h.streams.(
      outSees := 1, outAfter := h.streams.outAfter[0 := 1], computeSeesOut := h.streams.computeSeesOut - {0},
      reloadSeesOut := h.streams.reloadSeesOut - {0}, inIssued := h.streams.inIssued - {0}));
    assert Replaced(h.states, 0) == map[];
    assert BulkOffloaded(OutWaits(h), a, 0);
    var d := Dropped(a, 0);
    var b := d.(mapping := d.mapping[1 := map[]], streams := d.streams.(
      outAfter := d.streams.outAfter[1 := 1], computeSeesOut := d.streams.computeSeesOut - {1},
      reloadSeesOut := d.streams.reloadSeesOut - {1}, inIssued := d.streams.inIssued - {1}));
    assert Replaced(d.states, 1) == map[];
    assert BulkOffloaded(d, b, 1);
    assert WindowForward(c, a, FirstCommit(h), Fine);
    assert 1 in FirstCommit(h).mapping;
  }

  lemma {:induction false} OneStepRun(c: Config, r: Run, e: Event, r': Run, out: Outcome)
    requires Initial(r.h) && r == Run(r.h, true, map[], {})
    requires Legal(c, r, e) && Next(c, r, e, r', out)
    ensures IsRun(c, [r, r'], [e], [out])
  {
    hide Legal, Next, Initial;
    var runs, events, outs := [r, r'], [e], [out];
    assert |runs| == |events| + 1 && |outs| == |events|;
    assert runs[0] == r && Initial(runs[0].h);
  }

  /** The run that shows it: one commit, with nothing pushed. */
  lemma {:induction false} EarlyCopyOut(c: Config, h: Tables)
    requires TightWindow(c) && c.groups >= 2 && Initial(h)
    ensures !AlwaysAfterPushes(c)
  {
    hide CommitForward, CopiedAfterPushes;
    FirstCommitIs(c, h);
    var r := Run(h, true, map[], {});
    var r' := Run(FirstCommit(h), true, map[], {});
    OneStepRun(c, r, ForwardCommit, r', Fine);
    var runs: seq<Run> := [r, r'];
    assert !CopiedAfterPushes(runs[1].h);
  }

  /** Every group is copied out only after its pushes, in every run, exactly when there are fewer groups
      than layers, or a single group. */
  lemma {:induction false} CopyOutOrderExactly(groups: nat, layers: nat, window: map<nat, int>)
    requires 1 <= groups <= layers
    requires forall k: nat :: k in window <==> k < groups
    requires forall k: nat | k < groups :: window[k] == WindowEnd(groups, layers, k)
    ensures AlwaysAfterPushes(Config(groups, layers, window)) <==> groups < layers || groups == 1
  {
    hide WindowEnd, IsRun, CopiedAfterPushes, TightWindow, GoodWindow;
    var c := Config(groups, layers, window);
    if groups < layers {
      WindowIsGood(groups, layers, window);
    } else {
      WindowIsTight(groups, window);
    }
    if groups < layers || groups == 1 {
      forall runs: seq<Run>, events: seq<Event>, outs: seq<Outcome>, n: nat | IsRun(c, runs, events, outs) && n < |runs|
        ensures CopiedAfterPushes(runs[n].h)
      {
        RunLengths(c, runs, events, outs);
        if groups < layers {
          LaggingIsAfterPushes(c, runs, events, outs, n);
        } else {
          OneGroupIsAfterPushes(c, runs, events, outs, n);
        }
      }
    } else {
      EarlyCopyOut(c, Tables(0, 0, map[], map[], 0, map[], Streams(0, map[], {}, {}, {}, {})));
    }
  }

  /** The first window is over with the first layer: group 1 is copied out before any of its tensors is
      pushed, so its copy is empty. */
  lemma {:induction false} EarlyCopyOutIsEmpty(c: Config, h: Tables, h': Tables, out: Outcome)
    requires TightWindow(c) && c.groups >= 2 && h.current == 0 && h.offloaded == 0
    requires forall s | s in h.states :: s.group == 0 && h.states[s].OnDevice?
    requires CommitForward(c, h, h', out)
    ensures out == Fine && h'.offloaded == 1 && 1 in h'.mapping && h'.mapping[1] == map[]
  {
    hide HostOf, WindowForward;
    assert AllOnDevice(h.states, 0);
    var a: Tables :| BulkOffloaded(OutWaits(h), a, 0) && WindowForward(c, a, h', out);
    SecondCopyIsEmpty(c, a, h', out);
  }

  lemma {:induction false} SecondCopyIsEmpty(c: Config, a: Tables, h': Tables, out: Outcome)
    requires c.groups >= 2 && 0 in c.window && c.window[0] == 0
    requires a.current == 0 && a.offloaded == 0 && forall s | s in a.states :: s.group == 0
    requires WindowForward(c, a, h', out)
    ensures out == Fine && h'.offloaded == 1 && 1 in h'.mapping && h'.mapping[1] == map[]
  {
    hide HostOf;
    assert AllOnDevice(a.states, 1);
    var b: Tables :| BulkOffloaded(Dropped(a, 0), b, 1) && h' == NextGroup(b.(offloaded := 1));
    NothingToCopy(a.states, 1, b.mapping[1]);
  }

  lemma {:induction false} NothingToCopy(states: map<Slot, State>, g: nat, m: Host)
    requires HostOf(states, g, m) && forall s | s in states :: s.group != g
    ensures m == map[]
  {
    assert m.Keys == {};
  }

  /** In every run with as many groups as layers, only tensors of the first group are ever off the device:
      from the first commit until the last one on the way back. */
  lemma {:induction false} OnlyFirstIsOffloaded(
    c: Config, runs: seq<Run>, events: seq<Event>, outs: seq<Outcome>, n: nat, s: Slot)
    requires TightWindow(c) && IsRun(c, runs, events, outs) && n < |runs| && s in runs[n].live
    ensures s in runs[n].h.states
    ensures runs[n].h.states[s].Offloaded? <==> s.group == 0 && runs[n].h.current > 0
  {
    hide Legal, Next;
    EarlyRun(c, runs, events, outs, n);
    var r := runs[n];
    assert Kept(r.h, s, r.pushed[s], EarlyOff(r.h), r.forward);
  }

  lemma {:induction false} EarlyFrees(c: Config, r: Run)
    requires EarlyInv(c, r)
    ensures ReferencesFreed(c, r)
  {
    hide Kept, SameKeySameData;
  }

  /** For every number of groups up to the number of layers: in every state of every run, the device
      references are dropped in time. */
  lemma {:induction false} EveryRunFreesReferences(
    groups: nat, layers: nat, window: map<nat, int>, runs: seq<Run>, events: seq<Event>, outs: seq<Outcome>, n: nat)
    requires 1 <= groups <= layers
    requires forall k: nat :: k in window <==> k < groups
    requires forall k: nat | k < groups :: window[k] == WindowEnd(groups, layers, k)
    requires IsRun(Config(groups, layers, window), runs, events, outs) && n < |runs|
    ensures ReferencesFreed(Config(groups, layers, window), runs[n])
  {
    hide ReferencesFreed, EarlyInv, IsRun, WindowEnd;
    var c := Config(groups, layers, window);
    if groups < layers {
      EveryRunFreesMemory(groups, layers, window, runs, events, outs, n);
    } else {
      WindowIsTight(groups, window);
      RunLengths(c, runs, events, outs);
      EarlyRun(c, runs, events, outs, n);
      EarlyFrees(c, runs[n]);
    }
  }
}
