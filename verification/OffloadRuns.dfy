/** Whole forward and backward passes with activation offloading. */
module OffloadRuns {
  import opened Arith
  import opened Options
  import opened OffloadModel

  /** `pushed` is what was saved in this forward pass, `live` what was not taken back yet. */
  datatype Run = Run(h: Tables, forward: bool, pushed: map<Slot, Tensor>, live: set<Slot>)

  datatype Event = PushTensor(t: Tensor) | ForwardCommit | BackwardCommit | PopTensor(s: Slot) | NextPass

  /** Tensors saved in one group that share a key show the same elements. */
  predicate Compatible(pushed: map<Slot, Tensor>, g: nat, t: Tensor) {
    forall s | s in pushed && s.group == g && KeyOf(pushed[s]) == KeyOf(t) :: pushed[s].data == t.data
  }

  /** The calls that training makes: each layer pushes any number of tensors and commits; then, from
      the last layer to the first, a commit is followed by the pops of the layer, in any order. */
  predicate Legal(c: Config, r: Run, e: Event) {
    match e
    case PushTensor(t) => r.forward && r.h.current < c.layers && Compatible(r.pushed, r.h.current, t)
    case ForwardCommit => r.forward && r.h.current < c.layers
    case BackwardCommit => !r.forward && r.h.current > 0 && forall s | s in r.live :: s.group < r.h.current
    case PopTensor(s) => !r.forward && s in r.live && s.group == r.h.current
    case NextPass => !r.forward && r.h.current == 0 && r.live == {}
  }

  /** One event: what the handler does with it and how it answers. */
  ghost predicate Next(c: Config, r: Run, e: Event, r': Run, out: Outcome) {
    match e
    case PushTensor(t) =>
      var s := Slot(r.h.current, r.h.count);
      if s in r.h.states then out == AssertionError && r' == r
      else out == Fine && r' == Run(Push(c, r.h, t), r.forward, r.pushed[s := t], r.live + {s})
    case ForwardCommit =>
      && CommitForward(c, r.h, r'.h, out)
      && r' == r.(h := r'.h, forward := r'.h.current < c.layers)
    case BackwardCommit => CommitBackward(c, r.h, r'.h, out) && r' == r.(h := r'.h)
    case PopTensor(s) =>
      if s !in r.h.states || r.h.states[s].Offloaded? then out == AssertionError && r' == r
      else out == Fine && r' == r.(h := Pop(r.h, s), live := r.live - {s})
    case NextPass => out == Fine && r' == r.(forward := true, pushed := map[])
  }

  /** The tables as the constructor leaves them; what the streams saw of earlier passes is left open. */
  predicate Initial(h: Tables) {
    h.current == 0 && h.count == 0 && h.states == map[] && h.bufs == map[] && h.offloaded == 0 && h.mapping == map[]
  }

  // ------------------------------------------------------------------ invariant

  ghost predicate SameKeySameData(pushed: map<Slot, Tensor>) {
    forall s, s' | s in pushed && s' in pushed && s.group == s'.group && KeyOf(pushed[s]) == KeyOf(pushed[s']) ::
      pushed[s].data == pushed[s'].data
  }

  /** How slot `s` is kept when the first `off` groups are offloaded. */
  ghost predicate Kept(h: Tables, s: Slot, t: Tensor, off: nat, exact: bool) {
    && s in h.states
    && if s.group < off then
         && h.states[s] == Offloaded(KeyOf(t), t.shape)
         && s.group in h.mapping && KeyOf(t) in h.mapping[s.group] && h.mapping[s.group][KeyOf(t)] == t.data
       else h.states[s].OnDevice? && SameContent(h.states[s].t, t) && (exact ==> h.states[s].t == t)
  }

  ghost predicate KeptInv(h: Tables, pushed: map<Slot, Tensor>, live: set<Slot>, off: nat, exact: bool) {
    && live <= pushed.Keys && h.states.Keys == live
    && forall s | s in live :: Kept(h, s, pushed[s], off, exact)
  }

  /** There are copies of the first `n` groups. */
  ghost predicate Mapped(h: Tables, n: nat) {
    forall g: nat :: g in h.mapping <==> g < n
  }

  ghost predicate StatesInv(h: Tables, pushed: map<Slot, Tensor>, live: set<Slot>, off: nat, exact: bool) {
    KeptInv(h, pushed, live, off, exact) && Mapped(h, off)
  }

  /** The number of groups that are offloaded. */
  ghost function OffCount(c: Config, r: Run): nat
    requires GoodWindow(c)
  {
    if r.h.current == 0 then 0
    else if r.forward then Min(r.h.offloaded + 1, c.groups)
    else if r.h.offloaded == 1 && c.window[0] >= r.h.current then 0
    else r.h.offloaded
  }

  /** The group counter against the window map. */
  ghost predicate CounterInv(c: Config, r: Run)
    requires GoodWindow(c)
  {
    var n, g := r.h.offloaded, r.h.current;
    && g <= c.layers && n <= c.groups
    && (n < c.groups ==> c.window[n] >= g)
    && (if r.forward then g < c.layers && (n > 0 ==> c.window[n - 1] < g)
        else (g == 0 <==> n == 0) && (n > 1 ==> c.window[n - 1] < g) && r.h.count == 0)
  }

  /** A device reference is kept from push until its copy-out was waited for. */
  ghost predicate BufsInv(c: Config, r: Run) {
    forall s :: s in r.h.bufs <==> s in r.live && s.group < c.groups
  }

  ghost predicate DroppedInv(h: Tables) {
    forall s | s in h.bufs && h.bufs[s] == None :: s.group in h.streams.computeSeesOut
  }

  /** The references of the first `n` groups are dropped, the others are to the tensors pushed. */
  ghost predicate HeldInv(h: Tables, pushed: map<Slot, Tensor>, n: nat) {
    forall s | s in h.bufs ::
      s in pushed && h.bufs[s] == if s.group < n then None else Some(pushed[s])
  }

  ghost predicate ForwardInv(c: Config, r: Run)
    requires GoodWindow(c)
  {
    && r.live == r.pushed.Keys
    && (forall s | s in r.pushed :: s.group < r.h.current || (s.group == r.h.current && s.index < r.h.count))
    && (forall g | 0 <= g < OffCount(c, r) :: g in r.h.streams.outAfter && r.h.streams.outAfter[g] >= g + 1)
    && HeldInv(r.h, r.pushed, r.h.offloaded)
    && (forall g | 0 <= g < r.h.offloaded :: g in r.h.streams.computeSeesOut)
  }

  ghost predicate BackwardInv(c: Config, r: Run)
    requires GoodWindow(c)
  {
    && (forall s | s in r.live :: s.group <= r.h.current)
    && (forall s | s in r.h.bufs :: r.h.bufs[s] == None)
    && (forall g | 0 <= g < OffCount(c, r) :: g in r.h.streams.outAfter && r.h.streams.outAfter[g] >= g + 1)
    && (forall g | 0 <= g < c.groups :: g in r.h.streams.computeSeesOut)
    && (forall g | OffCount(c, r) <= g < c.groups :: g in r.h.streams.inIssued)
    && (forall g | OffCount(c, r) < g < c.groups :: g in r.h.streams.computeSeesIn)
    && (r.h.current == 0 ==> forall g | 0 <= g < c.groups :: g in r.h.streams.computeSeesIn)
  }

  ghost predicate Inv(c: Config, r: Run) {
    && GoodWindow(c)
    && CounterInv(c, r)
    && SameKeySameData(r.pushed)
    && StatesInv(r.h, r.pushed, r.live, OffCount(c, r), r.forward)
    && BufsInv(c, r) && DroppedInv(r.h)
    && (if r.forward then ForwardInv(c, r) else BackwardInv(c, r))
  }

  lemma {:induction false} InitialInv(c: Config, h: Tables)
    requires GoodWindow(c) && Initial(h)
    ensures Inv(c, Run(h, true, map[], {}))
  {
  }

  // ------------------------------------------------------------------ bulk copies

  lemma {:induction false} OffloadKept(
    h: Tables, h': Tables, pushed: map<Slot, Tensor>, live: set<Slot>, off: nat)
    requires SameKeySameData(pushed) && KeptInv(h, pushed, live, off, true) && BulkOffloaded(h, h', off)
    ensures KeptInv(h', pushed, live, off + 1, true)
  {
    forall s | s in live ensures Kept(h', s, pushed[s], off + 1, true) {
      assert Kept(h, s, pushed[s], off, true);
      if s.group == off {
        var m := h'.mapping[off];
        assert KeyOf(h.states[s].t) in m;
        var s' :| s' in h.states && s'.group == off && h.states[s'].OnDevice?
                  && KeyOf(h.states[s'].t) == KeyOf(pushed[s]) && h.states[s'].t.data == m[KeyOf(pushed[s])];
        assert Kept(h, s', pushed[s'], off, true);
      }
    }
  }

  lemma {:induction false} OffloadMaps(h: Tables, h': Tables, n: nat)
    requires Mapped(h, n) && BulkOffloaded(h, h', n)
    ensures Mapped(h', n + 1)
  {
  }

  lemma {:induction false} OffloadKeeps(
    h: Tables, h': Tables, pushed: map<Slot, Tensor>, live: set<Slot>, off: nat)
    requires SameKeySameData(pushed) && StatesInv(h, pushed, live, off, true) && BulkOffloaded(h, h', off)
    ensures StatesInv(h', pushed, live, off + 1, true)
  {
    hide KeptInv, Mapped, BulkOffloaded;
    OffloadKept(h, h', pushed, live, off);
    OffloadMaps(h, h', off);
  }

  lemma {:induction false} ReloadKept(
    h: Tables, h': Tables, pushed: map<Slot, Tensor>, live: set<Slot>, off: nat)
    requires KeptInv(h, pushed, live, off + 1, false) && BulkReloaded(h, h', off)
    ensures KeptInv(h', pushed, live, off, false)
  {
    forall s | s in live ensures Kept(h', s, pushed[s], off, false) {
      assert Kept(h, s, pushed[s], off + 1, false);
    }
  }

  lemma {:induction false} ReloadMaps(h: Tables, h': Tables, n: nat)
    requires Mapped(h, n + 1) && BulkReloaded(h, h', n)
    ensures Mapped(h', n)
  {
  }

  lemma {:induction false} ReloadKeeps(
    h: Tables, h': Tables, pushed: map<Slot, Tensor>, live: set<Slot>, off: nat)
    requires StatesInv(h, pushed, live, off + 1, false) && BulkReloaded(h, h', off)
    ensures StatesInv(h', pushed, live, off, false)
  {
    hide KeptInv, Mapped, BulkReloaded;
    ReloadKept(h, h', pushed, live, off);
    ReloadMaps(h, h', off);
  }

  /** What a group gets back: after copying out and reloading, every tensor has its own elements exactly
      when tensors with the same key have the same ones. */
  lemma {:induction false} BackExactly(
    states: map<Slot, State>, states': map<Slot, State>, g: nat, m: Host)
    requires AllOnDevice(states, g) && HostOf(states, g, m) && Reloaded(Replaced(states, g), states', g, m)
    ensures forall s | s in states && s.group == g :: s in states' && states'[s].OnDevice?
    ensures (forall s | s in states && s.group == g :: SameContent(states'[s].t, states[s].t))
            <==>
            (forall s, s' | s in states && s' in states && s.group == g == s'.group
                            && KeyOf(states[s].t) == KeyOf(states[s'].t) ::
               states[s].t.data == states[s'].t.data)
  {
    forall s | s in states && s.group == g
      ensures s in states' && states'[s].OnDevice? && KeyOf(states[s].t) in m
      ensures states'[s].t.data == m[KeyOf(states[s].t)]
      ensures states'[s].t.shape == states[s].t.shape && states'[s].t.dtype == states[s].t.dtype
    {
      assert Replaced(states, g)[s] == Offloaded(KeyOf(states[s].t), states[s].t.shape);
    }
  }

  // ------------------------------------------------------------------ push and pop

  /** The group being computed is not offloaded yet. */
  lemma {:induction false} NotYetOff(c: Config, r: Run)
    requires GoodWindow(c) && CounterInv(c, r) && r.forward
    ensures OffCount(c, r) <= r.h.current && r.h.offloaded <= r.h.current
  {
  }

  lemma {:induction false} PushKept(
    c: Config, h: Tables, pushed: map<Slot, Tensor>, live: set<Slot>, off: nat, t: Tensor)
    requires KeptInv(h, pushed, live, off, true) && off <= h.current
    requires Slot(h.current, h.count) !in live
    ensures var s := Slot(h.current, h.count);
            KeptInv(Push(c, h, t), pushed[s := t], live + {s}, off, true)
  {
    var s := Slot(h.current, h.count);
    forall s' | s' in live + {s} ensures Kept(Push(c, h, t), s', pushed[s := t][s'], off, true) {
      if s' != s {
        assert Kept(h, s', pushed[s'], off, true);
      }
    }
  }

  lemma {:induction false} PushKeepsKeys(pushed: map<Slot, Tensor>, s: Slot, t: Tensor)
    requires SameKeySameData(pushed) && Compatible(pushed, s.group, t) && s !in pushed
    ensures SameKeySameData(pushed[s := t])
  {
  }

  lemma {:induction false} PushKeepsCounter(c: Config, r: Run, r': Run)
    requires GoodWindow(c) && CounterInv(c, r) && r.forward && r'.forward
    requires r'.h.current == r.h.current && r'.h.offloaded == r.h.offloaded
    ensures CounterInv(c, r') && OffCount(c, r') == OffCount(c, r)
  {
  }

  lemma {:induction false} PushKeepsForward(c: Config, r: Run, t: Tensor)
    requires GoodWindow(c) && CounterInv(c, r) && r.forward && OffCount(c, r) <= r.h.current
    requires r.h.offloaded <= r.h.current
    requires ForwardInv(c, r) && BufsInv(c, r) && DroppedInv(r.h)
    ensures var s := Slot(r.h.current, r.h.count);
            var r' := Run(Push(c, r.h, t), true, r.pushed[s := t], r.live + {s});
            && s !in r.pushed && CounterInv(c, r') && OffCount(c, r') == OffCount(c, r)
            && ForwardInv(c, r') && BufsInv(c, r') && DroppedInv(r'.h)
  {
    hide CounterInv, OffCount, GoodWindow;
    PushKeepsCounter(c, r, Run(Push(c, r.h, t), true, r.pushed[Slot(r.h.current, r.h.count) := t],
                               r.live + {Slot(r.h.current, r.h.count)}));
  }

  lemma {:induction false} PushKeeps(c: Config, r: Run, t: Tensor, r': Run, out: Outcome)
    requires Inv(c, r) && Legal(c, r, PushTensor(t)) && Next(c, r, PushTensor(t), r', out)
    ensures out == Fine && Inv(c, r')
  {
    NotYetOff(c, r);
    PushKeepsForward(c, r, t);
    PushKept(c, r.h, r.pushed, r.live, OffCount(c, r), t);
    PushKeepsKeys(r.pushed, Slot(r.h.current, r.h.count), t);
  }

  /** A pop returns the contents pushed under its tag, from the device, after the reload was waited
      for. */
  lemma {:induction false} PopReturns(c: Config, r: Run, s: Slot)
    requires Inv(c, r) && Legal(c, r, PopTensor(s))
    ensures s in r.h.states && r.h.states[s].OnDevice? && SameContent(r.h.states[s].t, r.pushed[s])
    ensures s.group < c.groups ==> s.group in r.h.streams.computeSeesOut && s.group in r.h.streams.computeSeesIn
  {
    assert Kept(r.h, s, r.pushed[s], OffCount(c, r), false);
    if 0 < r.h.current < c.groups {
      ReloadedInTime(c, r);
    }
  }

  /** When the computation is back at group g, group g was reloaded, and the reload of the group
      before it was what the compute stream waited with. */
  lemma {:induction false} ReloadedInTime(c: Config, r: Run)
    requires GoodWindow(c) && CounterInv(c, r) && !r.forward && 0 < r.h.current < c.groups
    ensures OffCount(c, r) < r.h.current
  {
    if r.h.offloaded > 1 {
      assert c.window[r.h.offloaded - 1] >= r.h.offloaded;
    }
  }

  lemma {:induction false} PopKept(h: Tables, pushed: map<Slot, Tensor>, live: set<Slot>, off: nat, s: Slot)
    requires KeptInv(h, pushed, live, off, false)
    ensures KeptInv(Pop(h, s), pushed, live - {s}, off, false)
  {
    forall s' | s' in live - {s} ensures Kept(Pop(h, s), s', pushed[s'], off, false) {
      assert Kept(h, s', pushed[s'], off, false);
    }
  }

  lemma {:induction false} PopKeepsBackward(c: Config, r: Run, s: Slot)
    requires GoodWindow(c) && CounterInv(c, r) && !r.forward
    requires BackwardInv(c, r) && BufsInv(c, r) && DroppedInv(r.h)
    ensures var r' := r.(h := Pop(r.h, s), live := r.live - {s});
            && CounterInv(c, r') && OffCount(c, r') == OffCount(c, r)
            && BackwardInv(c, r') && BufsInv(c, r') && DroppedInv(r'.h)
  {
  }

  lemma {:induction false} PopKeeps(c: Config, r: Run, s: Slot, r': Run, out: Outcome)
    requires Inv(c, r) && Legal(c, r, PopTensor(s)) && Next(c, r, PopTensor(s), r', out)
    ensures out == Fine && Inv(c, r')
  {
    PopReturns(c, r, s);
    PopKept(r.h, r.pushed, r.live, OffCount(c, r), s);
    PopKeepsBackward(c, r, s);
  }

  // ------------------------------------------------------------------ commits

  /** The state after the part of a forward commit that runs before the window map is looked up. */
  ghost predicate Prepared(c: Config, r: Run, a: Tables)
    requires GoodWindow(c)
  {
    var q := r.(h := a);
    && r.forward && CounterInv(c, r) && a.current == r.h.current && a.offloaded == r.h.offloaded
    && SameKeySameData(r.pushed)
    && r.live == r.pushed.Keys
    && StatesInv(a, r.pushed, r.live, Min(a.offloaded + 1, c.groups), true)
    && BufsInv(c, q) && DroppedInv(a)
    && (forall s | s in r.pushed :: s.group <= a.current)
    && (forall g | 0 <= g < Min(a.offloaded + 1, c.groups) ::
          g in a.streams.outAfter && a.streams.outAfter[g] >= g + 1)
    && HeldInv(a, r.pushed, a.offloaded)
    && (forall g | 0 <= g < a.offloaded :: g in a.streams.computeSeesOut)
  }

  lemma {:induction false} Prepare(c: Config, r: Run, a: Tables)
    requires Inv(c, r) && r.forward
    requires if r.h.current == 0 then BulkOffloaded(OutWaits(r.h), a, 0) else a == r.h
    ensures Prepared(c, r, a)
  {
    hide StatesInv, SameKeySameData;
    if r.h.current == 0 {
      PrepareFirst(c, r, a);
    }
  }

  lemma {:induction false} PrepareFirst(c: Config, r: Run, a: Tables)
    requires Inv(c, r) && r.forward && r.h.current == 0
    requires BulkOffloaded(OutWaits(r.h), a, 0)
    ensures Prepared(c, r, a)
  {
    hide StatesInv, SameKeySameData, HostOf, Replaced;
    FirstOffload(r.h, a, r.pushed, r.live);
  }

  lemma {:induction false} FirstOffload(h: Tables, a: Tables, pushed: map<Slot, Tensor>, live: set<Slot>)
    requires SameKeySameData(pushed) && StatesInv(h, pushed, live, 0, true) && BulkOffloaded(OutWaits(h), a, 0)
    ensures StatesInv(a, pushed, live, 1, true)
  {
    hide StatesInv, SameKeySameData, BulkOffloaded;
    SameStates(h, OutWaits(h), pushed, live, 0, true);
    OffloadKeeps(OutWaits(h), a, pushed, live, 0);
  }

  lemma {:induction false} SameKept(
    h: Tables, h': Tables, pushed: map<Slot, Tensor>, live: set<Slot>, off: nat, exact: bool)
    requires KeptInv(h, pushed, live, off, exact) && h'.states == h.states && h'.mapping == h.mapping
    ensures KeptInv(h', pushed, live, off, exact) && KeptInv(h', pushed, live, off, false)
  {
    forall s | s in live ensures Kept(h', s, pushed[s], off, exact) && Kept(h', s, pushed[s], off, false) {
      assert Kept(h, s, pushed[s], off, exact);
    }
  }

  lemma {:induction false} SameStates(
    h: Tables, h': Tables, pushed: map<Slot, Tensor>, live: set<Slot>, off: nat, exact: bool)
    requires StatesInv(h, pushed, live, off, exact) && h'.states == h.states && h'.mapping == h.mapping
    ensures StatesInv(h', pushed, live, off, exact) && StatesInv(h', pushed, live, off, false)
  {
    hide KeptInv;
    SameKept(h, h', pushed, live, off, exact);
  }

  /** The window map always has an entry for the next group, and its window is not over yet. */
  lemma {:induction false} WindowAhead(c: Config, r: Run)
    requires GoodWindow(c) && CounterInv(c, r) && r.forward
    ensures r.h.offloaded < c.groups && r.h.current <= c.window[r.h.offloaded] <= c.layers - 1
    ensures c.window[r.h.offloaded] == c.layers - 1 <==> r.h.offloaded == c.groups - 1
  {
  }

  lemma {:induction false} WindowOpen(c: Config, r: Run, a: Tables)
    requires GoodWindow(c) && Prepared(c, r, a) && a.offloaded < c.groups && c.window[a.offloaded] > a.current
    ensures Inv(c, r.(h := NextGroup(a), forward := a.current + 1 < c.layers))
  {
    hide StatesInv, SameKeySameData;
    WindowAhead(c, r);
    SameStates(a, NextGroup(a), r.pushed, r.live, Min(a.offloaded + 1, c.groups), true);
  }

  /** The window of a group that is not the last is over: it is dropped and the next is copied out. */
  lemma {:induction false} CopyNext(a: Tables, b: Tables, pushed: map<Slot, Tensor>, live: set<Slot>)
    requires SameKeySameData(pushed) && StatesInv(a, pushed, live, a.offloaded + 1, true)
    requires BulkOffloaded(Dropped(a, a.offloaded), b, a.offloaded + 1)
    ensures StatesInv(NextGroup(b.(offloaded := a.offloaded + 1)), pushed, live, a.offloaded + 2, true)
  {
    var d := Dropped(a, a.offloaded);
    assert StatesInv(d, pushed, live, a.offloaded + 1, true) by {
      SameStates(a, d, pushed, live, a.offloaded + 1, true);
    }
    OffloadKeeps(d, b, pushed, live, a.offloaded + 1);
    SameStates(b, NextGroup(b.(offloaded := a.offloaded + 1)), pushed, live, a.offloaded + 2, true);
  }

  lemma {:induction false} NextKeepsCounter(c: Config, r: Run, h': Tables)
    requires GoodWindow(c) && CounterInv(c, r) && r.forward && r.h.offloaded < c.groups - 1
    requires c.window[r.h.offloaded] == r.h.current
    requires h'.current == r.h.current + 1 && h'.offloaded == r.h.offloaded + 1
    ensures CounterInv(c, r.(h := h')) && OffCount(c, r.(h := h')) == r.h.offloaded + 2
  {
    WindowAhead(c, r);
    assert c.window[r.h.offloaded + 1] > c.window[r.h.offloaded] >= r.h.offloaded + 1;
  }

  lemma {:induction false} NextKeepsStreams(a: Tables, b: Tables)
    requires BulkOffloaded(Dropped(a, a.offloaded), b, a.offloaded + 1)
    requires forall g | 0 <= g < a.offloaded + 1 :: g in a.streams.outAfter && a.streams.outAfter[g] >= g + 1
    requires a.current >= a.offloaded + 1
    ensures forall g | 0 <= g < a.offloaded + 2 :: g in b.streams.outAfter && b.streams.outAfter[g] >= g + 1
    ensures forall g | 0 <= g < a.offloaded + 1 :: g in b.streams.computeSeesOut
  {
  }

  lemma {:induction false} NextKeepsBufs(a: Tables, b: Tables, pushed: map<Slot, Tensor>)
    requires BulkOffloaded(Dropped(a, a.offloaded), b, a.offloaded + 1)
    requires HeldInv(a, pushed, a.offloaded)
    ensures forall s :: s in b.bufs <==> s in a.bufs
    ensures HeldInv(b, pushed, a.offloaded + 1)
  {
  }

  lemma {:induction false} NextTables(a: Tables, b: Tables)
    requires BulkOffloaded(Dropped(a, a.offloaded), b, a.offloaded + 1)
    ensures b.current == a.current && b.count == a.count
  {
  }

  lemma {:induction false} HeldIsDropped(h: Tables, pushed: map<Slot, Tensor>, n: nat)
    requires HeldInv(h, pushed, n) && forall g | 0 <= g < n :: g in h.streams.computeSeesOut
    ensures DroppedInv(h)
  {
  }

  lemma {:induction false} SameHeld(h: Tables, h': Tables, pushed: map<Slot, Tensor>, n: nat)
    requires HeldInv(h, pushed, n) && h'.bufs == h.bufs
    ensures HeldInv(h', pushed, n)
  {
  }

  lemma {:induction false} PreparedMeans(c: Config, r: Run, a: Tables)
    requires GoodWindow(c) && Prepared(c, r, a) && a.offloaded < c.groups - 1
    requires c.window[a.offloaded] == a.current
    ensures a.current >= a.offloaded + 1
    ensures r.forward && CounterInv(c, r) && a.current == r.h.current && a.offloaded == r.h.offloaded
    ensures r.live == r.pushed.Keys && BufsInv(c, r.(h := a)) && HeldInv(a, r.pushed, a.offloaded)
    ensures forall s | s in r.pushed :: s.group <= a.current
    ensures forall g | 0 <= g < a.offloaded + 1 :: g in a.streams.outAfter && a.streams.outAfter[g] >= g + 1
  {
    hide StatesInv, SameKeySameData, CounterInv, HeldInv, DroppedInv, BufsInv;
  }

  lemma {:induction false} NextKeepsForward(c: Config, r: Run, a: Tables, b: Tables)
    requires GoodWindow(c) && Prepared(c, r, a) && a.offloaded < c.groups - 1
    requires c.window[a.offloaded] == a.current
    requires BulkOffloaded(Dropped(a, a.offloaded), b, a.offloaded + 1)
    ensures var r' := r.(h := NextGroup(b.(offloaded := a.offloaded + 1)));
            && CounterInv(c, r') && OffCount(c, r') == a.offloaded + 2
            && BufsInv(c, r') && DroppedInv(r'.h) && ForwardInv(c, r')
  {
    hide CounterInv, OffCount, BulkOffloaded, Dropped, HeldInv, DroppedInv, Prepared, GoodWindow;
    PreparedMeans(c, r, a);
    var h' := NextGroup(b.(offloaded := a.offloaded + 1));
    NextTables(a, b);
    NextKeepsCounter(c, r, h');
    NextKeepsStreams(a, b);
    NextKeepsBufs(a, b, r.pushed);
    SameHeld(b, h', r.pushed, a.offloaded + 1);
    HeldIsDropped(h', r.pushed, a.offloaded + 1);
  }

  /** The last window is over with the last layer: every group is offloaded, and the way back starts. */
  lemma {:induction false} LastWindow(c: Config, r: Run, a: Tables)
    requires GoodWindow(c) && Prepared(c, r, a) && a.offloaded == c.groups - 1
    requires c.window[a.offloaded] == a.current
    ensures Inv(c, r.(h := NextGroup(Dropped(a, a.offloaded).(offloaded := c.groups)), forward := false))
  {
    hide StatesInv, SameKeySameData;
    var h' := NextGroup(Dropped(a, a.offloaded).(offloaded := c.groups));
    var r' := r.(h := h', forward := false);
    SameStates(a, h', r.pushed, r.live, c.groups, true);
    assert OffCount(c, r') == c.groups;
    assert CounterInv(c, r') && BufsInv(c, r') && DroppedInv(h') && BackwardInv(c, r');
  }

  /** The group to copy out next is still on the device. */
  lemma {:induction false} StillOnDevice(
    h: Tables, pushed: map<Slot, Tensor>, live: set<Slot>, off: nat, exact: bool, g: nat)
    requires KeptInv(h, pushed, live, off, exact) && g >= off
    ensures AllOnDevice(h.states, g)
  {
    forall s | s in h.states && s.group == g ensures h.states[s].OnDevice? {
      assert Kept(h, s, pushed[s], off, exact);
    }
  }

  lemma {:induction false} NextWindow(c: Config, r: Run, a: Tables, b: Tables)
    requires GoodWindow(c) && Prepared(c, r, a) && a.offloaded < c.groups - 1
    requires c.window[a.offloaded] == a.current
    requires BulkOffloaded(Dropped(a, a.offloaded), b, a.offloaded + 1)
    ensures a.current + 1 < c.layers
    ensures Inv(c, r.(h := NextGroup(b.(offloaded := a.offloaded + 1)), forward := true))
  {
    hide StatesInv, SameKeySameData, BulkOffloaded, ForwardInv, BackwardInv, DroppedInv, BufsInv;
    WindowAhead(c, r);
    CopyNext(a, b, r.pushed, r.live);
    NextKeepsForward(c, r, a, b);
  }

  lemma {:induction false} WindowKeeps(c: Config, r: Run, a: Tables, r': Run, out: Outcome)
    requires GoodWindow(c) && Prepared(c, r, a) && WindowForward(c, a, r'.h, out)
    requires out == Fine ==> r' == r.(h := r'.h, forward := r'.h.current < c.layers)
    ensures out == Fine && Inv(c, r')
  {
    hide Inv, KeptInv, Mapped, SameKeySameData, DroppedInv, BufsInv;
    WindowAhead(c, r);
    if c.window[a.offloaded] != a.current {
      WindowOpen(c, r, a);
    } else if a.offloaded == c.groups - 1 {
      LastWindow(c, r, a);
    } else {
      StillOnDevice(a, r.pushed, r.live, a.offloaded + 1, true, a.offloaded + 1);
      var b: Tables :| BulkOffloaded(Dropped(a, a.offloaded), b, a.offloaded + 1)
                       && r'.h == NextGroup(b.(offloaded := a.offloaded + 1));
      NextWindow(c, r, a, b);
    }
  }

  lemma {:induction false} ForwardKeeps(c: Config, r: Run, r': Run, out: Outcome)
    requires Inv(c, r) && Legal(c, r, ForwardCommit) && Next(c, r, ForwardCommit, r', out)
    ensures out == Fine && Inv(c, r')
  {
    hide Prepared;
    hide WindowForward;
    if r.h.current == 0 {
      StillOnDevice(r.h, r.pushed, r.live, 0, true, 0);
    }
    var a: Tables :| (if r.h.current == 0 then BulkOffloaded(OutWaits(r.h), a, 0) else a == r.h)
                     && WindowForward(c, a, r'.h, out);
    Prepare(c, r, a);
    WindowKeeps(c, r, a, r', out);
  }

  // ------------------------------------------------------------------ the way back

  /** On the way back the counter is positive, and the group to reload next has a copy. */
  lemma {:induction false} SomethingToReload(c: Config, r: Run)
    requires GoodWindow(c) && CounterInv(c, r) && !r.forward && r.h.current > 0
    ensures 0 < r.h.offloaded <= c.groups
    ensures c.window[r.h.offloaded - 1] == r.h.current - 1 ==> OffCount(c, r) == r.h.offloaded
  {
  }

  lemma {:induction false} NothingReloadedCounter(c: Config, r: Run, r': Run)
    requires GoodWindow(c) && CounterInv(c, r) && !r.forward && r.h.current > 0 && r.h.offloaded > 0
    requires c.window[r.h.offloaded - 1] != r.h.current - 1
    requires r' == r.(h := EndOfPass(r.h.(current := r.h.current - 1)))
    ensures CounterInv(c, r') && OffCount(c, r') == OffCount(c, r)
  {
  }

  lemma {:induction false} NothingReloaded(c: Config, r: Run, r': Run)
    requires GoodWindow(c) && CounterInv(c, r) && !r.forward && r.h.current > 0 && r.h.offloaded > 0
    requires c.window[r.h.offloaded - 1] != r.h.current - 1
    requires BufsInv(c, r) && DroppedInv(r.h) && BackwardInv(c, r)
    requires forall s | s in r.live :: s.group < r.h.current
    requires r' == r.(h := EndOfPass(r.h.(current := r.h.current - 1)))
    ensures CounterInv(c, r') && OffCount(c, r') == OffCount(c, r)
    ensures BufsInv(c, r') && DroppedInv(r'.h) && BackwardInv(c, r')
  {
    hide CounterInv, OffCount, GoodWindow;
    NothingReloadedCounter(c, r, r');
    if r.h.current == 1 {
      AtStartNothingOff(c, r);
    }
  }

  lemma {:induction false} AtStartNothingOff(c: Config, r: Run)
    requires GoodWindow(c) && CounterInv(c, r) && !r.forward && r.h.current == 1 && r.h.offloaded > 0
    requires c.window[r.h.offloaded - 1] != r.h.current - 1
    ensures OffCount(c, r) == 0
  {
  }

  lemma {:induction false} ReloadKeepsStates(c: Config, r: Run, b: Tables, n: nat)
    requires StatesInv(r.h, r.pushed, r.live, n, false) && n > 0 && r.h.current > 0
    requires BulkReloaded(ReloadWaits(r.h.(current := r.h.current - 1)), b, n - 1)
    ensures StatesInv(b, r.pushed, r.live, n - 1, false)
  {
    var w := ReloadWaits(r.h.(current := r.h.current - 1));
    SameStates(r.h, w, r.pushed, r.live, n, false);
    ReloadKeeps(w, b, r.pushed, r.live, n - 1);
  }

  lemma {:induction false} ReloadKeepsCounter(c: Config, r: Run, r': Run)
    requires GoodWindow(c) && CounterInv(c, r) && !r.forward && r.h.current > 0 && !r'.forward
    requires 0 < r.h.offloaded <= c.groups && c.window[r.h.offloaded - 1] == r.h.current - 1
    requires r'.h.current == r.h.current - 1 && r'.h.count == r.h.count
    requires r'.h.offloaded == if r.h.offloaded > 1 then r.h.offloaded - 1 else r.h.offloaded
    ensures CounterInv(c, r') && OffCount(c, r') == r.h.offloaded - 1 && r'.h.current > 0
  {
    var n := r.h.offloaded;
    assert c.window[n - 1] >= n;
    assert n > 1 ==> c.window[n - 2] < c.window[n - 1];
    assert n < c.groups ==> c.window[n - 1] < c.window[n];
  }

  lemma {:induction false} ReloadKeepsBackward(c: Config, r: Run, b: Tables, r': Run)
    requires GoodWindow(c) && CounterInv(c, r) && !r.forward && r.h.current > 0
    requires 0 < r.h.offloaded <= c.groups && c.window[r.h.offloaded - 1] == r.h.current - 1
    requires BufsInv(c, r) && DroppedInv(r.h) && BackwardInv(c, r) && OffCount(c, r) == r.h.offloaded
    requires forall s | s in r.live :: s.group < r.h.current
    requires BulkReloaded(ReloadWaits(r.h.(current := r.h.current - 1)), b, r.h.offloaded - 1)
    requires r' == r.(h := b.(offloaded := if r.h.offloaded > 1 then r.h.offloaded - 1 else r.h.offloaded))
    ensures CounterInv(c, r') && OffCount(c, r') == r.h.offloaded - 1 && r'.h.current > 0
    ensures BufsInv(c, r') && DroppedInv(r'.h) && BackwardInv(c, r')
  {
    hide CounterInv, OffCount, GoodWindow, Reloaded;
    ReloadKeepsCounter(c, r, r');
  }

  /** The reload is ordered after the copy-out of the same group. */
  lemma {:induction false} ReloadAfterCopyOut(c: Config, r: Run)
    requires Inv(c, r) && Legal(c, r, BackwardCommit)
    ensures r.h.offloaded > 0
    ensures r.h.offloaded - 1 in ReloadWaits(r.h.(current := r.h.current - 1)).streams.reloadSeesOut
  {
    SomethingToReload(c, r);
  }

  lemma {:induction false} CopiesAreThere(
    h: Tables, pushed: map<Slot, Tensor>, live: set<Slot>, off: nat, g: nat)
    requires StatesInv(h, pushed, live, off, false) && g < off
    ensures g in h.mapping && CopiesPresent(h.states, g, h.mapping[g])
  {
    forall s | s in h.states && s.group == g && h.states[s].Offloaded? ensures h.states[s].key in h.mapping[g] {
      assert Kept(h, s, pushed[s], off, false);
    }
  }

  lemma {:induction false} ReloadStepKeeps(c: Config, r: Run, b: Tables, r': Run)
    requires Inv(c, r) && Legal(c, r, BackwardCommit) && r.h.offloaded > 0
    requires r.h.offloaded <= c.groups && c.window[r.h.offloaded - 1] == r.h.current - 1
    requires OffCount(c, r) == r.h.offloaded
    requires BulkReloaded(ReloadWaits(r.h.(current := r.h.current - 1)), b, r.h.offloaded - 1)
    requires r' == r.(h := EndOfPass(b.(offloaded := if r.h.offloaded > 1 then r.h.offloaded - 1 else r.h.offloaded)))
    ensures Inv(c, r')
  {
    hide StatesInv, SameKeySameData, BackwardInv, DroppedInv, BufsInv, BulkReloaded, CounterInv, OffCount;
    var last := r.(h := b.(offloaded := if r.h.offloaded > 1 then r.h.offloaded - 1 else r.h.offloaded));
    ReloadKeepsBackward(c, r, b, last);
    assert r' == last;
    ReloadKeepsStates(c, r, b, r.h.offloaded);
    SameStates(b, r'.h, r.pushed, r.live, r.h.offloaded - 1, false);
  }

  lemma {:induction false} NoReloadStepKeeps(c: Config, r: Run, r': Run)
    requires Inv(c, r) && Legal(c, r, BackwardCommit) && r.h.offloaded > 0
    requires c.window[r.h.offloaded - 1] != r.h.current - 1
    requires r' == r.(h := EndOfPass(r.h.(current := r.h.current - 1)))
    ensures Inv(c, r')
  {
    hide StatesInv, SameKeySameData, BackwardInv, DroppedInv, BufsInv, CounterInv, OffCount;
    NothingReloaded(c, r, r');
    SameStates(r.h, r'.h, r.pushed, r.live, OffCount(c, r), false);
  }

  lemma {:induction false} BackwardKeeps(c: Config, r: Run, r': Run, out: Outcome)
    requires Inv(c, r) && Legal(c, r, BackwardCommit) && Next(c, r, BackwardCommit, r', out)
    ensures out == Fine && Inv(c, r')
  {
    hide StatesInv, SameKeySameData, BackwardInv, DroppedInv, BufsInv, BulkReloaded, CounterInv, OffCount;
    SomethingToReload(c, r);
    var a := r.h.(current := r.h.current - 1);
    if c.window[r.h.offloaded - 1] != a.current {
      NoReloadStepKeeps(c, r, r');
    } else {
      CopiesAreThere(r.h, r.pushed, r.live, r.h.offloaded, r.h.offloaded - 1);
      var b: Tables :| BulkReloaded(ReloadWaits(a), b, r.h.offloaded - 1)
        && r'.h == EndOfPass(b.(offloaded := if r.h.offloaded > 1 then r.h.offloaded - 1 else r.h.offloaded));
      ReloadStepKeeps(c, r, b, r');
    }
  }

  /** When everything was taken back, the tables are as the constructor left them. */
  lemma {:induction false} BackToStart(c: Config, r: Run)
    requires Inv(c, r) && Legal(c, r, NextPass)
    ensures Initial(r.h)
  {
    assert r.h.states.Keys == {};
    assert forall s :: s !in r.h.bufs;
    assert r.h.bufs.Keys == {};
    assert r.h.mapping.Keys == {};
  }

  // ------------------------------------------------------------------ whole runs

  lemma {:induction false} StepKeeps(c: Config, r: Run, e: Event, r': Run, out: Outcome)
    requires Inv(c, r) && Legal(c, r, e) && Next(c, r, e, r', out)
    ensures out == Fine && Inv(c, r')
  {
    match e
    case PushTensor(t) => PushKeeps(c, r, t, r', out);
    case ForwardCommit => ForwardKeeps(c, r, r', out);
    case BackwardCommit => BackwardKeeps(c, r, r', out);
    case PopTensor(s) => PopKeeps(c, r, s, r', out);
    case NextPass =>
      BackToStart(c, r);
      InitialInv(c, r'.h);
  }

  /** Any number of passes, from the tables of the constructor. */
  ghost predicate IsRun(c: Config, runs: seq<Run>, events: seq<Event>, outs: seq<Outcome>) {
    && |runs| == |events| + 1 && |outs| == |events|
    && Initial(runs[0].h) && runs[0] == Run(runs[0].h, true, map[], {})
    && forall i {:trigger outs[i]} | 0 <= i < |events| ::
         Legal(c, runs[i], events[i]) && Next(c, runs[i], events[i], runs[i + 1], outs[i])
  }

  lemma {:induction false} RunStep(c: Config, runs: seq<Run>, events: seq<Event>, outs: seq<Outcome>, i: nat)
    requires IsRun(c, runs, events, outs) && i < |events|
    ensures Legal(c, runs[i], events[i]) && Next(c, runs[i], events[i], runs[i + 1], outs[i])
  {
    assert outs[i] == outs[i];
  }

  lemma {:induction false} RunKeeps(c: Config, runs: seq<Run>, events: seq<Event>, outs: seq<Outcome>, n: nat)
    requires GoodWindow(c) && IsRun(c, runs, events, outs) && n <= |events|
    ensures Inv(c, runs[n])
    ensures forall i | 0 <= i < n :: outs[i] == Fine
  {
    hide Inv, Legal, Next;
    if n == 0 {
      InitialInv(c, runs[0].h);
    } else {
      RunKeeps(c, runs, events, outs, n - 1);
      RunStep(c, runs, events, outs, n - 1);
      StepKeeps(c, runs[n - 1], events[n - 1], runs[n], outs[n - 1]);
    }
  }

  /** What holds of one event of a run: no assert and no look-up fails; a pop gives back what was
      pushed under its tag; a pass ends with the tables of the constructor. */
  ghost predicate Faithful(r: Run, e: Event, out: Outcome) {
    && out == Fine
    && (e.PopTensor? ==>
          e.s in r.pushed && e.s in r.h.states && r.h.states[e.s].OnDevice?
          && SameContent(r.h.states[e.s].t, r.pushed[e.s]))
    && (e.NextPass? ==> Initial(r.h))
  }

  /** Fewer groups than layers. */
  lemma {:induction false} LaggingRunIsFaithful(
    c: Config, runs: seq<Run>, events: seq<Event>, outs: seq<Outcome>)
    requires GoodWindow(c) && IsRun(c, runs, events, outs)
    ensures forall i | 0 <= i < |events| :: Faithful(runs[i], events[i], outs[i])
  {
    hide Inv, Legal, Next, Initial;
    forall i | 0 <= i < |events| ensures Faithful(runs[i], events[i], outs[i]) {
      RunKeeps(c, runs, events, outs, i);
      RunStep(c, runs, events, outs, i);
      StepKeeps(c, runs[i], events[i], runs[i + 1], outs[i]);
      match events[i]
      case PopTensor(s) => PopIsFaithful(c, runs[i], s);
      case NextPass => BackToStart(c, runs[i]);
      case _ =>
    }
  }

  lemma {:induction false} PopIsFaithful(c: Config, r: Run, s: Slot)
    requires Inv(c, r) && Legal(c, r, PopTensor(s))
    ensures Faithful(r, PopTensor(s), Fine)
  {
    PopReturns(c, r, s);
  }

  /** Every group that was copied out was copied out after its pushes. */
  ghost predicate CopiedAfterPushes(h: Tables) {
    forall g: nat | g in h.mapping :: g in h.streams.outAfter && h.streams.outAfter[g] >= g + 1
  }

  /** How the streams are ordered in every state of a run: a group is copied out after its pushes, its
      device references are dropped after the copy-out was waited for, and what is on the device again
      for the group being computed was waited for. */
  ghost predicate StreamsInOrder(c: Config, r: Run) {
    && CopiedAfterPushes(r.h)
    && (forall s | s in r.h.bufs && r.h.bufs[s] == None :: s.group in r.h.streams.computeSeesOut)
    && (!r.forward && r.h.current < c.groups ==> r.h.current in r.h.streams.computeSeesIn)
  }

  lemma {:induction false} EveryRunIsInOrder(
    c: Config, runs: seq<Run>, events: seq<Event>, outs: seq<Outcome>, n: nat)
    requires GoodWindow(c) && IsRun(c, runs, events, outs) && n <= |events|
    ensures StreamsInOrder(c, runs[n])
    ensures n < |events| && events[n] == BackwardCommit ==>
              var h := runs[n].h;
              && h.current > 0 && h.offloaded > 0
              && h.offloaded - 1 in ReloadWaits(h.(current := h.current - 1)).streams.reloadSeesOut
  {
    RunKeeps(c, runs, events, outs, n);
    var r := runs[n];
    if !r.forward && 0 < r.h.current < c.groups {
      ReloadedInTime(c, r);
    }
    if n < |events| && events[n] == BackwardCommit {
      RunStep(c, runs, events, outs, n);
      ReloadAfterCopyOut(c, r);
    }
  }

  // ------------------------------------------------------------------ what is where

  /** The device references of a run. In the forward pass that of group g is dropped once the commit at the
      end of its window is behind, and until then it is the tensor pushed; on the way back all that are left
      are dropped. */
  ghost predicate ReferencesFreed(c: Config, r: Run)
    requires forall k: nat :: k in c.window <==> k < c.groups
  {
    && (forall s :: s in r.h.bufs <==> s in r.live && s.group < c.groups)
    && forall s | s in r.h.bufs :: s in r.pushed
         && r.h.bufs[s] == if r.forward && c.window[s.group] >= r.h.current then Some(r.pushed[s]) else None
  }

  /** A tensor is off the device from the commit at the end of the window before its own (group 0: from the
      first commit) until the commit on the way back that ends its own window. */
  ghost predicate MovedInTime(c: Config, r: Run)
    requires forall k: nat :: k in c.window <==> k < c.groups
  {
    && r.h.states.Keys == r.live
    && forall s | s in r.live ::
         r.h.states[s].Offloaded? <==>
           && s.group < c.groups
           && if !r.forward then c.window[s.group] < r.h.current
              else if s.group == 0 then r.h.current > 0
              else c.window[s.group - 1] < r.h.current
  }

  /** How many windows are over. */
  lemma {:induction false} WindowsOver(c: Config, r: Run, g: nat)
    requires GoodWindow(c) && CounterInv(c, r) && g < c.groups
    ensures r.forward ==> (g < r.h.offloaded <==> c.window[g] < r.h.current)
    ensures r.forward ==> (g < OffCount(c, r) <==> if g == 0 then r.h.current > 0 else c.window[g - 1] < r.h.current)
    ensures !r.forward ==> (g < OffCount(c, r) <==> c.window[g] < r.h.current)
  {
    var n := r.h.offloaded;
    if r.forward {
      WindowBefore(c, n, g, r.h.current);
      if g > 0 {
        WindowBefore(c, n, g - 1, r.h.current);
      }
    } else if n > 1 {
      WindowBefore(c, n, g, r.h.current);
    } else if g > 0 {
      assert c.window[0] < c.window[g];
      assert c.window[g] >= c.window[1];
    }
  }

  lemma {:induction false} WindowBefore(c: Config, n: nat, g: nat, current: nat)
    requires GoodWindow(c) && g < c.groups && n <= c.groups
    requires (n < c.groups ==> c.window[n] >= current) && (n > 0 ==> c.window[n - 1] < current)
    ensures g < n <==> c.window[g] < current
  {
    if g < n - 1 {
      assert c.window[g] < c.window[n - 1];
    }
    if g > n {
      assert c.window[n] < c.window[g];
    }
  }

  lemma {:induction false} InvFrees(c: Config, r: Run)
    requires Inv(c, r)
    ensures ReferencesFreed(c, r)
  {
    hide CounterInv, OffCount, StatesInv, SameKeySameData;
    forall s | s in r.h.bufs
      ensures s.group < c.groups && s in r.live && s in r.pushed
      ensures r.forward ==> (s.group < r.h.offloaded <==> c.window[s.group] < r.h.current)
    {
      LiveIsPushed(c, r, s);
      WindowsOver(c, r, s.group);
    }
  }

  lemma {:induction false} LiveIsPushed(c: Config, r: Run, s: Slot)
    requires Inv(c, r) && s in r.live
    ensures s in r.pushed && s in r.h.states
    ensures r.h.states[s].Offloaded? <==> s.group < OffCount(c, r)
  {
    hide CounterInv, OffCount, SameKeySameData, ForwardInv, BackwardInv, BufsInv, DroppedInv;
    assert Kept(r.h, s, r.pushed[s], OffCount(c, r), r.forward);
  }

  lemma {:induction false} OffWithin(c: Config, r: Run)
    requires GoodWindow(c) && CounterInv(c, r)
    ensures OffCount(c, r) <= c.groups
  {
  }

  lemma {:induction false} InvMoves(c: Config, r: Run)
    requires Inv(c, r)
    ensures MovedInTime(c, r)
  {
    hide CounterInv, OffCount, SameKeySameData, ForwardInv, BackwardInv, BufsInv, DroppedInv, Kept;
    OffWithin(c, r);
    forall s | s in r.live
      ensures r.h.states[s].Offloaded? <==>
              && s.group < c.groups
              && if !r.forward then c.window[s.group] < r.h.current
                 else if s.group == 0 then r.h.current > 0
                 else c.window[s.group - 1] < r.h.current
    {
      LiveIsPushed(c, r, s);
      if s.group < c.groups {
        WindowsOver(c, r, s.group);
      }
    }
  }

  /** In every state of every run with fewer groups than layers, the references are freed and the tensors
      moved in time. */
  lemma {:induction false} EveryRunFreesMemory(
    groups: nat, layers: nat, window: map<nat, int>, runs: seq<Run>, events: seq<Event>, outs: seq<Outcome>, n: nat)
    requires 1 <= groups < layers
    requires forall k: nat :: k in window <==> k < groups
    requires forall k: nat | k < groups :: window[k] == WindowEnd(groups, layers, k)
    requires IsRun(Config(groups, layers, window), runs, events, outs) && n < |runs|
    ensures ReferencesFreed(Config(groups, layers, window), runs[n])
    ensures MovedInTime(Config(groups, layers, window), runs[n])
  {
    var c := Config(groups, layers, window);
    hide Inv, Legal, Next, ReferencesFreed, MovedInTime;
    WindowIsGood(groups, layers, window);
    RunKeeps(c, runs, events, outs, n);
    InvFrees(c, runs[n]);
    InvMoves(c, runs[n]);
  }
}
