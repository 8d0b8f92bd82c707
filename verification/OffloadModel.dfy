/** Activation offloading: the tables of the handler as values, the effect of each call on them,
    and the order that the two side streams impose. */
module OffloadModel {
  import opened Arith
  import opened Options

  /** `storage` is the address of the storage; `data` the elements the tensor shows, in order. */
  datatype Tensor = Tensor(storage: nat, offset: nat, dtype: string, shape: seq<nat>, data: seq<int>)

  datatype Key = Key(address: nat, dtype: string)

  /** `_get_unique_tensor_key`: a byte address plus an element offset. */
  function KeyOf(t: Tensor): Key {
    Key(t.storage + t.offset, t.dtype)
  }

  /** Keys agree exactly for tensors of one type whose address and offset add up to the same. In particular
      two tensors of one type in one storage have the same key exactly when they begin at the same element. */
  lemma {:induction false} KeysAgree(a: Tensor, b: Tensor)
    ensures KeyOf(a) == KeyOf(b) <==> a.dtype == b.dtype && a.storage + a.offset == b.storage + b.offset
    ensures a.storage == b.storage && a.dtype == b.dtype ==> (KeyOf(a) == KeyOf(b) <==> a.offset == b.offset)
  {
  }

  predicate SameContent(a: Tensor, b: Tensor) {
    a.shape == b.shape && a.data == b.data && a.dtype == b.dtype
  }

  /** Although the key adds elements to bytes, it never mixes up two storages that are alive at the
      same time: the sum stays inside the storage. */
  lemma {:induction false} KeysTellStoragesApart(a: Tensor, aEnd: nat, b: Tensor, bEnd: nat, itemsize: nat)
    requires itemsize >= 1 && a.storage + a.offset * itemsize < aEnd && b.storage + b.offset * itemsize < bEnd
    requires a.storage != b.storage && (aEnd <= b.storage || bEnd <= a.storage)
    ensures KeyOf(a) != KeyOf(b)
  {
    assert a.offset <= a.offset * itemsize && b.offset <= b.offset * itemsize;
  }

  datatype Slot = Slot(group: nat, index: nat)

  datatype State = OnDevice(t: Tensor) | Offloaded(key: Key, shape: seq<nat>)

  /** What one stream knows of another. `outAfter[g]` is the number of groups whose computation
      preceded the copy-out of group `g`; `computeSeesOut` the groups whose copy-out the compute
      stream has waited for, `reloadSeesOut` those the reload stream comes after; `computeSeesIn`
      the groups whose reload the compute stream has waited for. */
  datatype Streams = Streams(
    outSees: nat, outAfter: map<nat, nat>, computeSeesOut: set<nat>, reloadSeesOut: set<nat>,
    inIssued: set<nat>, computeSeesIn: set<nat>)

  type Host = map<Key, seq<int>>

  /** The fields of `AsyncDoubleBufferGroupOffloadHandler`. */
  datatype Tables = Tables(
    current: nat, count: nat, states: map<Slot, State>, bufs: map<Slot, Option<Tensor>>,
    offloaded: nat, mapping: map<nat, Host>, streams: Streams)

  // ------------------------------------------------------------------ the window map

  /** The commit at which the copy-out of group `k` is waited for. */
  function WindowEnd(groups: nat, layers: nat, k: nat): int
    requires groups >= 1
  {
    (layers / groups) * (k + 1) + Min(k + 1, layers % groups) - 1
  }

  lemma {:induction false} WindowGrows(groups: nat, layers: nat, j: nat, k: nat)
    requires 1 <= groups <= layers && j < k
    ensures WindowEnd(groups, layers, j) < WindowEnd(groups, layers, k)
  {
    var q := layers / groups;
    assert q >= 1;
    assert q * (k + 1) >= q * (j + 1) + q * (k - j) && q * (k - j) >= k - j;
  }

  /** The layers are shared out evenly: every window has the same number of layers, and the first ones have
      one more where they do not divide. */
  lemma {:induction false} WindowSizes(groups: nat, layers: nat, k: nat)
    requires 1 <= groups && k < groups
    ensures var before := if k == 0 then -1 else WindowEnd(groups, layers, k - 1);
            var size := WindowEnd(groups, layers, k) - before;
            && layers - groups < size * groups < layers + groups
            && (k > 0 ==> size <= if k == 1 then WindowEnd(groups, layers, 0) + 1
                                  else WindowEnd(groups, layers, k - 1) - WindowEnd(groups, layers, k - 2))
  {
    var q, r := layers / groups, layers % groups;
    assert q * groups + r == layers;
    assert q * (k + 1) == q * k + q && (k > 0 ==> q * k == q * (k - 1) + q);
    assert (q + 1) * groups == q * groups + groups;
  }

  lemma {:induction false} WindowLast(groups: nat, layers: nat)
    requires 1 <= groups <= layers
    ensures WindowEnd(groups, layers, groups - 1) == layers - 1
  {
    assert (layers / groups) * groups + layers % groups == layers;
  }

  lemma {:induction false} WindowLag(groups: nat, layers: nat, k: nat)
    requires 1 <= groups < layers && k < groups
    ensures WindowEnd(groups, layers, k) >= k + 1
  {
    var q, r := layers / groups, layers % groups;
    assert q * groups + r == layers;
    if q == 1 {
      assert r >= 1;
    } else {
      assert q >= 2;
      assert q * (k + 1) >= 2 * (k + 1);
    }
  }

  /** The next group is copied out when a window ends. Every such window ends after that group was
      computed exactly when there are fewer groups than layers, or no next group at all. */
  lemma {:induction false} WindowLags(groups: nat, layers: nat)
    requires groups >= 1
    ensures (forall k: nat | k + 1 < groups :: WindowEnd(groups, layers, k) >= k + 1) <==>
            groups < layers || groups == 1
  {
    if groups < layers {
      forall k: nat | k + 1 < groups ensures WindowEnd(groups, layers, k) >= k + 1 {
        WindowLag(groups, layers, k);
      }
    } else if groups > 1 {
      FirstWindow(groups, layers);
      assert 0 + 1 < groups;
    }
  }

  lemma {:induction false} FirstWindow(groups: nat, layers: nat)
    requires groups >= 1 && groups >= layers
    ensures WindowEnd(groups, layers, 0) < 1
  {
    if groups > layers {
      assert layers / groups == 0;
    } else {
      assert layers / groups == 1 && layers % groups == 0;
    }
  }

  /** `num_offload_group`, `num_model_group` and `layer_window_map`. */
  datatype Config = Config(groups: nat, layers: nat, window: map<nat, int>)

  /** What the handler relies on. */
  ghost predicate GoodWindow(c: Config) {
    && 1 <= c.groups < c.layers
    && (forall k: nat :: k in c.window <==> k < c.groups)
    && (forall j: nat, k: nat | j < k < c.groups :: c.window[j] < c.window[k])
    && (forall k: nat | k < c.groups :: c.window[k] >= k + 1)
    && c.window[c.groups - 1] == c.layers - 1
  }

  lemma {:induction false} WindowIsGood(groups: nat, layers: nat, window: map<nat, int>)
    requires 1 <= groups < layers
    requires forall k: nat :: k in window <==> k < groups
    requires forall k: nat | k < groups :: window[k] == WindowEnd(groups, layers, k)
    ensures GoodWindow(Config(groups, layers, window))
  {
    forall j: nat, k: nat | j < k < groups ensures window[j] < window[k] {
      WindowGrows(groups, layers, j, k);
    }
    forall k: nat | k < groups ensures window[k] >= k + 1 {
      WindowLag(groups, layers, k);
    }
    WindowLast(groups, layers);
  }

  /** The loop of the constructor that fills the window map. */
  method BuildWindow(groups: nat, layers: nat) returns (window: map<nat, int>)
    ensures forall k: nat :: k in window <==> k < groups
    ensures forall k: nat | k < groups :: window[k] == WindowEnd(groups, layers, k)
    ensures 1 <= groups < layers ==> GoodWindow(Config(groups, layers, window))
  {
    window := map[];
    var constant := 0;
    for i := 0 to groups
      invariant forall k: nat :: k in window <==> k < i
      invariant forall k: nat | k < i :: window[k] == WindowEnd(groups, layers, k)
      invariant constant == if groups == 0 then 0 else Min(i, layers % groups)
    {
      window := window[i := (layers / groups) * (i + 1) - 1];
      if i < layers % groups {
        window := window[i := window[i] + i + 1];
        constant := i + 1;
      } else {
        window := window[i := window[i] + constant];
      }
    }
    if 1 <= groups < layers {
      WindowIsGood(groups, layers, window);
    }
  }

  // ------------------------------------------------------------------ the calls

  datatype Outcome = Fine | LookupError | AssertionError

  function Push(c: Config, h: Tables, t: Tensor): Tables {
    var s := Slot(h.current, h.count);
    h.(count := h.count + 1, states := h.states[s := OnDevice(t)],
       bufs := if h.current < c.groups then h.bufs[s := Some(t)] else h.bufs,
       streams := h.streams.(outSees := Min(h.streams.outSees, h.current)))
  }

  function Pop(h: Tables, s: Slot): Tables {
    h.(states := h.states - {s}, bufs := h.bufs - {s})
  }

  /** The copies that `bulk_offload_group` makes: one for each key, of any tensor with that key. */
  predicate HostOf(states: map<Slot, State>, g: nat, m: Host) {
    && (forall s | s in states && s.group == g :: states[s].OnDevice? && KeyOf(states[s].t) in m)
    && forall k | k in m ::
         exists s :: s in states && s.group == g && states[s].OnDevice?
                     && KeyOf(states[s].t) == k && states[s].t.data == m[k]
  }

  /** What `bulk_offload_group` asserts. */
  predicate AllOnDevice(states: map<Slot, State>, g: nat) {
    forall s | s in states && s.group == g :: states[s].OnDevice?
  }

  /** Every tensor of the group is replaced by its key. */
  function Replaced(states: map<Slot, State>, g: nat): map<Slot, State> {
    map s | s in states ::
      if s.group == g && states[s].OnDevice? then Offloaded(KeyOf(states[s].t), states[s].t.shape) else states[s]
  }

  /** The copy-out stream waits for what has been computed up to the group being committed. */
  function OutWaits(h: Tables): Tables {
    h.(streams := h.streams.(outSees := h.current + 1))
  }

  predicate BulkOffloaded(h: Tables, h': Tables, g: nat) {
    && g in h'.mapping && HostOf(h.states, g, h'.mapping[g])
    && h' == h.(
         states := Replaced(h.states, g), mapping := h.mapping[g := h'.mapping[g]],
         streams := h.streams.(
           outAfter := h.streams.outAfter[g := h.streams.outSees],
           computeSeesOut := h.streams.computeSeesOut - {g}, reloadSeesOut := h.streams.reloadSeesOut - {g},
           inIssued := h.streams.inIssued - {g}))
  }

  /** The compute stream waits for all copies issued so far, and the device references of the group
      are dropped. */
  function Dropped(h: Tables, g: nat): Tables {
    h.(bufs := map s | s in h.bufs :: if s.group == g then None else h.bufs[s],
       streams := h.streams.(
         outSees := h.current + 1,
         computeSeesOut := h.streams.computeSeesOut + h.streams.outAfter.Keys))
  }

  /** `on_group_commit_forward`. What an exception leaves behind is left open. */
  ghost predicate CommitForward(c: Config, h: Tables, h': Tables, out: Outcome) {
    if h.current == 0 && !AllOnDevice(h.states, 0) then out == AssertionError
    else exists a: Tables ::
      && (if h.current == 0 then BulkOffloaded(OutWaits(h), a, 0) else a == h)
      && WindowForward(c, a, h', out)
  }

  /** The part that looks at the window map. */
  ghost predicate WindowForward(c: Config, a: Tables, h': Tables, out: Outcome) {
    if a.offloaded !in c.window then out == LookupError
    else if c.window[a.offloaded] != a.current then out == Fine && h' == NextGroup(a)
    else if a.offloaded < c.groups - 1 && !AllOnDevice(a.states, a.offloaded + 1) then out == AssertionError
    else
      && out == Fine
      && exists b: Tables ::
           && (if a.offloaded < c.groups - 1
               then BulkOffloaded(Dropped(a, a.offloaded), b, a.offloaded + 1)
               else b == Dropped(a, a.offloaded))
           && h' == NextGroup(b.(offloaded := a.offloaded + 1))
  }

  function NextGroup(h: Tables): Tables {
    h.(current := h.current + 1, count := 0)
  }

  /** The device tensor that `bulk_reload_group` puts back for a key. */
  predicate Recovered(t: Tensor, key: Key, shape: seq<nat>, m: Host) {
    key in m && t.shape == shape && t.data == m[key] && t.dtype == key.dtype
  }

  predicate Reloaded(states: map<Slot, State>, states': map<Slot, State>, g: nat, m: Host) {
    && states'.Keys == states.Keys
    && forall s | s in states ::
         if s.group == g && states[s].Offloaded?
         then states'[s].OnDevice? && Recovered(states'[s].t, states[s].key, states[s].shape, m)
         else states'[s] == states[s]
  }

  /** Every key that a tensor of the group was replaced by has a copy. */
  predicate CopiesPresent(states: map<Slot, State>, g: nat, m: Host) {
    forall s | s in states && s.group == g && states[s].Offloaded? :: states[s].key in m
  }

  /** The two streams wait for each other, as before each reload. */
  function ReloadWaits(h: Tables): Tables {
    h.(streams := h.streams.(
         reloadSeesOut := h.streams.reloadSeesOut + h.streams.computeSeesOut,
         computeSeesIn := h.streams.computeSeesIn + h.streams.inIssued))
  }

  predicate BulkReloaded(h: Tables, h': Tables, g: nat) {
    && g in h.mapping && Reloaded(h.states, h'.states, g, h.mapping[g])
    && h' == h.(
         states := h'.states, mapping := h.mapping - {g},
         streams := h.streams.(inIssued := h.streams.inIssued + {g}, computeSeesIn := h.streams.computeSeesIn - {g}))
  }

  /** The end of the backward pass waits for all reloads. */
  function LastWait(h: Tables): Tables {
    h.(offloaded := 0, streams := h.streams.(computeSeesIn := h.streams.computeSeesIn + h.streams.inIssued))
  }

  /** `on_group_commit_backward`. What an exception leaves behind is left open. */
  ghost predicate CommitBackward(c: Config, h: Tables, h': Tables, out: Outcome) {
    if h.current == 0 then out == AssertionError
    else
      var a := h.(current := h.current - 1);
      if h.offloaded == 0 || h.offloaded - 1 !in c.window then out == LookupError
      else if c.window[h.offloaded - 1] != a.current then out == Fine && h' == EndOfPass(a)
      else if h.offloaded > c.groups then out == AssertionError
      else if h.offloaded - 1 !in h.mapping
           || !CopiesPresent(h.states, h.offloaded - 1, h.mapping[h.offloaded - 1]) then out == LookupError
      else
        && out == Fine
        && exists b: Tables ::
             && BulkReloaded(ReloadWaits(a), b, h.offloaded - 1)
             && h' == EndOfPass(b.(offloaded := if h.offloaded > 1 then h.offloaded - 1 else h.offloaded))
  }

  function EndOfPass(h: Tables): Tables {
    if h.current == 0 then LastWait(h) else h
  }
}
