/** The rollout protocol by its events alone: what was dispatched, put and finished, and what a sample holds. */
module RolloutTrace {
  import opened Options
  import Keys
  import opened ReplayBuffer
  import opened Rollout

  // ------------------------------------------------------------------ what the worlds record of the events

  lemma {:induction false} RunStep(worlds: seq<World>, events: seq<Event>, n: nat)
    requires IsRun(worlds, events) && n < |events|
    ensures Enabled(worlds[n], events[n]) && worlds[n + 1] == After(worlds[n], events[n])
  {
    assert events[n] == events[n];
  }

  ghost predicate Puts(e: Event, uid: string, session: nat) {
    e.PutOutputs? && e.uid == uid && e.session == session
  }

  /** An output was put at event `a`. */
  ghost predicate PutAt(e: Event, k: string) {
    e.PutOutputs? && k in SessionKeys(e.uid, e.session, e.count)
  }

  lemma {:induction false} OutputsOfStep(w: World, e: Event)
    requires Enabled(w, e)
    ensures forall k :: k in After(w, e).outputs <==> k in w.outputs || PutAt(e, k)
  {
    hide SessionKeys;
  }

  /** The recorded outputs are those that were put. */
  lemma {:induction false} OutputsRecorded(worlds: seq<World>, events: seq<Event>, n: nat, k: string)
    requires IsRun(worlds, events) && n <= |events|
    ensures k in worlds[n].outputs <==> exists a :: 0 <= a < n && PutAt(events[a], k)
  {
    hide Enabled, After, PutAt;
    if n > 0 {
      OutputsRecorded(worlds, events, n - 1, k);
      RunStep(worlds, events, n - 1);
      OutputsOfStep(worlds[n - 1], events[n - 1]);
    }
  }

  /** What a step does to a prompt that is there. */
  lemma {:induction false} PromptOfStep(w: World, e: Event, u: string)
    requires Enabled(w, e) && u in w.prompts
    ensures var w' := After(w, e);
            && u in w'.prompts && w'.prompts[u].step == w.prompts[u].step
            && w'.prompts[u].sessions == w.prompts[u].sessions
            && (forall s :: s in w'.prompts[u].done <==> s in w.prompts[u].done || Puts(e, u, s))
            && w'.prompts[u].phase ==
               if e == Finish(u) then Succeeded else if e == Fail(u) then Failed else w.prompts[u].phase
  {
    hide SessionKeys;
  }

  lemma {:induction false} NewPrompt(w: World, e: Event, u: string)
    requires Enabled(w, e) && u !in w.prompts
    ensures var w' := After(w, e);
            && (u in w'.prompts <==> e.Dispatch? && u in e.uids)
            && (u in w'.prompts ==> w'.prompts[u] == Prompt(w.step, e.uids[u], {}, Working))
            && e != Finish(u) && e != Fail(u)
  {
    hide SessionKeys;
  }

  /** A prompt has ended as its events say, and its sessions have put what their events say. */
  lemma {:induction false} PromptRecorded(worlds: seq<World>, events: seq<Event>, n: nat, u: string)
    requires IsRun(worlds, events) && n <= |events|
    ensures u !in worlds[n].prompts ==> forall a | 0 <= a < n :: events[a] != Finish(u) && events[a] != Fail(u)
    ensures u in worlds[n].prompts ==>
              && (worlds[n].prompts[u].phase == Succeeded <==> exists a :: 0 <= a < n && events[a] == Finish(u))
              && (worlds[n].prompts[u].phase == Failed <==> exists a :: 0 <= a < n && events[a] == Fail(u))
              && forall s | s in worlds[n].prompts[u].done :: exists a :: 0 <= a < n && Puts(events[a], u, s)
  {
    hide Enabled, After, Puts;
    if n > 0 {
      PromptRecorded(worlds, events, n - 1, u);
      RunStep(worlds, events, n - 1);
      var w, e := worlds[n - 1], events[n - 1];
      if u in w.prompts {
        PromptOfStep(w, e, u);
        EndsOnce(w, e, u);
      } else {
        NewPrompt(w, e, u);
      }
    } else {
      assert worlds[0].prompts == map[] by { StartsEmpty(worlds, events); }
    }
  }

  lemma {:induction false} StartsEmpty(worlds: seq<World>, events: seq<Event>)
    requires IsRun(worlds, events)
    ensures worlds[0].prompts == map[]
  {
  }

  lemma {:induction false} EndsOnce(w: World, e: Event, u: string)
    requires Enabled(w, e) && u in w.prompts
    ensures e == Finish(u) || e == Fail(u) ==> w.prompts[u].phase == Working
  {
  }

  // ------------------------------------------------------------------ between a dispatch and a sample

  /** Event `d` is the last dispatch before event `b`. */
  ghost predicate LastDispatch(events: seq<Event>, d: nat, b: nat) {
    d < b < |events| && events[d].Dispatch? && forall i | d < i < b :: !events[i].Dispatch?
  }

  lemma {:induction false} NotWaitingStays(worlds: seq<World>, events: seq<Event>, m: nat, n: nat)
    requires IsRun(worlds, events) && m <= n <= |events| && worlds[m].trainer != Waiting
    requires forall i | m <= i < n :: !events[i].Dispatch?
    ensures worlds[n].trainer != Waiting
  {
    if m < n {
      NotWaitingStays(worlds, events, m, n - 1);
      RunStep(worlds, events, n - 1);
      NoDispatch(worlds[n - 1], events[n - 1]);
    }
  }

  lemma {:induction false} NoDispatch(w: World, e: Event)
    requires Enabled(w, e) && !e.Dispatch?
    ensures w.trainer != Waiting ==> After(w, e).trainer != Waiting
    ensures w.trainer == Waiting ==> After(w, e).step == w.step
    ensures After(w, e).prompts.Keys == w.prompts.Keys
  {
    hide SessionKeys;
  }

  /** Until the sample the trainer waits, and the prompts are those dispatched then and earlier ones. */
  lemma {:induction false} SinceDispatch(worlds: seq<World>, events: seq<Event>, d: nat, b: nat, n: nat)
    requires IsRun(worlds, events) && LastDispatch(events, d, b) && worlds[b].trainer == Waiting && d < n <= b
    ensures worlds[n].step == worlds[d].step
    ensures worlds[n].prompts.Keys == worlds[d].prompts.Keys + events[d].uids.Keys
    ensures forall u | u in events[d].uids ::
              worlds[n].prompts[u].step == worlds[d].step && worlds[n].prompts[u].sessions == events[d].uids[u]
    ensures forall u | u in worlds[d].prompts :: worlds[n].prompts[u].step == worlds[d].prompts[u].step
    ensures worlds[d].trainer == Ready && worlds[d].prompts.Keys !! events[d].uids.Keys
  {
    hide Enabled, After;
    RunStep(worlds, events, d);
    Dispatched(worlds[d], events[d]);
    if n > d + 1 {
      SinceDispatch(worlds, events, d, b, n - 1);
      RunStep(worlds, events, n - 1);
      var w, e := worlds[n - 1], events[n - 1];
      NoDispatch(w, e);
      if w.trainer != Waiting {
        NotWaitingStays(worlds, events, n - 1, b);
      }
      forall u | u in w.prompts
        ensures worlds[n].prompts[u].step == w.prompts[u].step
        ensures worlds[n].prompts[u].sessions == w.prompts[u].sessions
      {
        PromptOfStep(w, e, u);
      }
    }
  }

  lemma {:induction false} Dispatched(w: World, e: Event)
    requires Enabled(w, e) && e.Dispatch?
    ensures w.trainer == Ready && w.prompts.Keys !! e.uids.Keys
    ensures var w' := After(w, e);
            && w'.step == w.step && w'.prompts.Keys == w.prompts.Keys + e.uids.Keys
            && (forall u | u in e.uids :: w'.prompts[u].step == w.step && w'.prompts[u].sessions == e.uids[u])
            && forall u | u in w.prompts :: w'.prompts[u].step == w.prompts[u].step
  {
  }

  // ------------------------------------------------------------------ samples

  /** The prompt of a key that was put is the one it was put for. */
  lemma {:induction false} PutFor(e: Event, k: string)
    requires PutAt(e, k)
    ensures e.PutOutputs? && OwnerOf(k) == e.uid
  {
    SessionKeysOwner(e.uid, e.session, e.count);
  }

  /** Whether event `e` occurred before event `b`. */
  ghost predicate Before(events: seq<Event>, b: nat, e: Event)
    requires b <= |events|
  {
    exists a :: 0 <= a < b && events[a] == e
  }

  /** What a sample holds, by the events before it: every prompt of the last dispatch has finished or failed;
      every key is that of an output put for such a prompt; of a prompt that did not fail every session has
      put its outputs; and then every output put for it is there, each once. */
  ghost predicate SampleOf(events: seq<Event>, d: nat, b: nat, keys: seq<string>)
    requires LastDispatch(events, d, b)
  {
    && (forall i, j | 0 <= i < j < |keys| :: keys[i] != keys[j])
    && (forall u | u in events[d].uids :: Before(events, b, Finish(u)) || Before(events, b, Fail(u)))
    && (forall k | k in keys ::
          exists a ::
            0 <= a < b && events[a].PutOutputs? && events[a].uid in events[d].uids && IsOutputOf(events[a], k))
    && (forall u, s: nat | u in events[d].uids && !Before(events, b, Fail(u)) && s < events[d].uids[u] ::
          SessionPut(events, b, u, s))
    && (forall a, i: nat | 0 <= a < b && events[a].PutOutputs? && events[a].uid in events[d].uids
                           && !Before(events, b, Fail(events[a].uid)) && i < events[a].count ::
          Keys.OutputKey(events[a].uid, events[a].session, i) in keys)
  }

  ghost predicate SessionPut(events: seq<Event>, b: nat, u: string, s: nat)
    requires b <= |events|
  {
    exists a :: 0 <= a < b && Puts(events[a], u, s)
  }

  /** `k` is the key of an output that event `e` put. */
  ghost predicate IsOutputOf(e: Event, k: string) {
    e.PutOutputs? && exists i: nat :: i < e.count && k == Keys.OutputKey(e.uid, e.session, i)
  }

  lemma {:induction false} PutIsOutput(e: Event, k: string)
    ensures PutAt(e, k) <==> IsOutputOf(e, k)
  {
    if e.PutOutputs? {
      SessionKeysExactly(e.uid, e.session, e.count);
    }
  }

  lemma {:induction false} OutputIsPut(e: Event, i: nat)
    requires e.PutOutputs? && i < e.count
    ensures PutAt(e, Keys.OutputKey(e.uid, e.session, i))
  {
    PutIsOutput(e, Keys.OutputKey(e.uid, e.session, i));
  }

  /** In every interleaving, every sample holds what the events before it say. */
  lemma {:induction false} EverySampleByEvents(
    worlds: seq<World>, events: seq<Event>, d: nat, b: nat, keys: seq<string>)
    requires IsRun(worlds, events) && LastDispatch(events, d, b) && events[b] == Sample(Got(keys))
    ensures SampleOf(events, d, b, keys)
  {
    hide Enabled, After, OwnerOf, Puts, PutAt, IsOutputOf, Inv;
    RunStep(worlds, events, b);
    SampleNeeds(worlds[b], keys);
    EverySampleIsWhole(worlds, events, b);
    SinceDispatch(worlds, events, d, b, b);
    RunKeeps(worlds, events, d);
    EarlierSteps(worlds[d]);
    var w := worlds[b];
    forall u | u in events[d].uids
      ensures Before(events, b, Finish(u)) || Before(events, b, Fail(u))
      ensures !Before(events, b, Fail(u)) ==> w.prompts[u].phase == Succeeded
    {
      PromptRecorded(worlds, events, b, u);
    }
    forall k | k in keys
      ensures exists a ::
                0 <= a < b && events[a].PutOutputs? && events[a].uid in events[d].uids && IsOutputOf(events[a], k)
    {
      OutputsRecorded(worlds, events, b, k);
      var a :| 0 <= a < b && PutAt(events[a], k);
      PutFor(events[a], k);
      PutIsOutput(events[a], k);
      assert OwnerOf(k) in w.prompts && w.prompts[OwnerOf(k)].step == w.step by { SampledOutput(w, keys, k); }
    }
    forall u, s: nat | u in events[d].uids && !Before(events, b, Fail(u)) && s < events[d].uids[u]
      ensures SessionPut(events, b, u, s)
    {
      PromptRecorded(worlds, events, b, u);
      assert AllDone(w.prompts[u]);
      assert s in w.prompts[u].done;
    }
    forall a, i: nat | 0 <= a < b && events[a].PutOutputs? && events[a].uid in events[d].uids
                       && !Before(events, b, Fail(events[a].uid)) && i < events[a].count
      ensures Keys.OutputKey(events[a].uid, events[a].session, i) in keys
    {
      var k := Keys.OutputKey(events[a].uid, events[a].session, i);
      OutputIsPut(events[a], i);
      PutFor(events[a], k);
      OutputsRecorded(worlds, events, b, k);
      PromptRecorded(worlds, events, b, events[a].uid);
    }
  }

  lemma {:induction false} SampleNeeds(w: World, keys: seq<string>)
    requires Enabled(w, Sample(Got(keys)))
    ensures w.trainer == Waiting && forall i, j | 0 <= i < j < |keys| :: keys[i] != keys[j]
  {
  }

  lemma {:induction false} SampledOutput(w: World, keys: seq<string>, k: string)
    requires WholeStep(w, keys) && k in keys
    ensures OwnerOf(k) in w.prompts && w.prompts[OwnerOf(k)].step == w.step
  {
  }

  lemma {:induction false} EarlierSteps(w: World)
    requires Inv(w) && w.trainer == Ready
    ensures forall u | u in w.prompts :: w.prompts[u].step < w.step
  {
  }

  // ------------------------------------------------------------------ clearing

  /** Every session that put an output is recorded. */
  lemma {:induction false} PutIsDone(worlds: seq<World>, events: seq<Event>, n: nat, a: nat)
    requires IsRun(worlds, events) && a < n <= |events| && events[a].PutOutputs?
    ensures events[a].uid in worlds[n].prompts && events[a].session in worlds[n].prompts[events[a].uid].done
  {
    hide Enabled, After;
    var u := events[a].uid;
    RunStep(worlds, events, n - 1);
    if a < n - 1 {
      PutIsDone(worlds, events, n - 1, a);
      PromptOfStep(worlds[n - 1], events[n - 1], u);
    } else {
      PutNeeds(worlds[a], events[a]);
      PromptOfStep(worlds[a], events[a], u);
    }
  }

  lemma {:induction false} PutNeeds(w: World, e: Event)
    requires Enabled(w, e) && e.PutOutputs?
    ensures e.uid in w.prompts && e.session !in w.prompts[e.uid].done
  {
  }

  /** No output is put twice. */
  lemma {:induction false} PutOnce(worlds: seq<World>, events: seq<Event>, a: nat, a': nat, k: string)
    requires IsRun(worlds, events) && a < a' < |events| && PutAt(events[a], k)
    ensures !PutAt(events[a'], k)
  {
    if PutAt(events[a'], k) {
      PutIsOutput(events[a], k);
      PutIsOutput(events[a'], k);
      var i: nat :| i < events[a].count && k == Keys.OutputKey(events[a].uid, events[a].session, i);
      var i': nat :| i' < events[a'].count && k == Keys.OutputKey(events[a'].uid, events[a'].session, i');
      Keys.OutputKeyInjective(events[a].uid, events[a].session, i, events[a'].uid, events[a'].session, i');
      PutIsDone(worlds, events, a', a);
      RunStep(worlds, events, a');
    }
  }

  /** What a step does to the place of a key that it does not put: it stays out of the queue, out of the
      snapshot, and out of the buffer, unless the snapshot brings it. */
  lemma {:induction false} OutOfStep(w: World, e: Event, k: string)
    requires Enabled(w, e) && '_' in k && !PutAt(e, k) && NamesInv(w) && k !in w.queue
    ensures k !in After(w, e).queue
    ensures (w.snapshot.Some? ==> k !in w.snapshot.value) ==>
              && (After(w, e).snapshot.Some? ==> k !in After(w, e).snapshot.value)
              && (k !in w.buffer ==> k !in After(w, e).buffer)
  {
    hide SessionKeys, OwnerOf;
  }

  /** What the trainer clears from the queue never comes back to it, and what it then removes from its buffer
      never comes back there, unless the poller had it in hand when it was cleared. */
  lemma {:induction false} ClearedStaysOut(
    worlds: seq<World>, events: seq<Event>, c: nat, n: nat, gone: set<string>, k: string)
    requires IsRun(worlds, events) && c < n <= |events| && events[c] == Clear(gone) && k in gone
    ensures k !in worlds[n].queue
    ensures (worlds[c].snapshot.Some? ==> k !in worlds[c].snapshot.value) ==>
              && (worlds[n].snapshot.Some? ==> k !in worlds[n].snapshot.value)
              && ((exists r :: c < r < n && events[r] == Remove) ==> k !in worlds[n].buffer)
  {
    hide Enabled, After, PutAt, NamesInv;
    ClearedOutput(worlds, events, c, gone, k);
    var a :| 0 <= a < c && PutAt(events[a], k);
    RunStep(worlds, events, n - 1);
    var w, e := worlds[n - 1], events[n - 1];
    if n == c + 1 {
      ClearStep(w, gone, k);
    } else {
      ClearedStaysOut(worlds, events, c, n - 1, gone, k);
      PutOnce(worlds, events, a, n - 1, k);
      RunKeeps(worlds, events, n - 1);
      NamesOf(w);
      OutOfStep(w, e, k);
      if e == Remove && (worlds[c].snapshot.Some? ==> k !in worlds[c].snapshot.value) {
        RemovesGone(worlds, events, c, n - 1, gone);
        RemoveStep(w, k);
      }
    }
  }

  lemma {:induction false} NamesOf(w: World)
    requires Inv(w)
    ensures NamesInv(w)
  {
  }

  lemma {:induction false} ClearedOutput(worlds: seq<World>, events: seq<Event>, c: nat, gone: set<string>, k: string)
    requires IsRun(worlds, events) && c < |events| && events[c] == Clear(gone) && k in gone
    ensures '_' in k && exists a :: 0 <= a < c && PutAt(events[a], k)
  {
    RunStep(worlds, events, c);
    RunKeeps(worlds, events, c);
    hide PutAt, OwnerOf;
    assert OutputOf(worlds[c], k, worlds[c].step);
    OutputsRecorded(worlds, events, c, k);
  }

  lemma {:induction false} ClearStep(w: World, gone: set<string>, k: string)
    requires Enabled(w, Clear(gone)) && k in gone
    ensures var w' := After(w, Clear(gone)); k !in w'.queue && w'.snapshot == w.snapshot && w'.trainer == Cleared(gone)
  {
  }

  lemma {:induction false} RemoveStep(w: World, k: string)
    requires Enabled(w, Remove) && (w.trainer.Cleared? && k !in w.trainer.gone ==> k !in w.buffer)
    ensures k !in After(w, Remove).buffer
  {
  }

  /** The first removal after clearing is of what was cleared. */
  lemma {:induction false} RemovesGone(worlds: seq<World>, events: seq<Event>, c: nat, r: nat, gone: set<string>)
    requires IsRun(worlds, events) && c < r < |events| && events[c] == Clear(gone) && events[r] == Remove
    ensures (exists q :: c < q < r && events[q] == Remove) || worlds[r].trainer == Cleared(gone)
  {
    if !exists q :: c < q < r && events[q] == Remove {
      StaysCleared(worlds, events, c, r, gone);
    }
  }

  lemma {:induction false} StaysCleared(worlds: seq<World>, events: seq<Event>, c: nat, n: nat, gone: set<string>)
    requires IsRun(worlds, events) && c < n <= |events| && events[c] == Clear(gone)
    requires forall q | c < q < n :: events[q] != Remove
    ensures worlds[n].trainer == Cleared(gone)
  {
    RunStep(worlds, events, n - 1);
    if n > c + 1 {
      StaysCleared(worlds, events, c, n - 1, gone);
    }
  }

  // ------------------------------------------------------------------ going on

  /** A prompt at work can go on: any session that has not put its outputs can, and when none is left the
      prompt can finish. */
  lemma {:induction false} WorkerGoesOn(w: World, u: string, count: nat)
    requires u in w.prompts && w.prompts[u].phase == Working
    ensures forall s: nat | s < w.prompts[u].sessions && s !in w.prompts[u].done :: Enabled(w, PutOutputs(u, s, count))
    ensures (forall s: nat | s < w.prompts[u].sessions :: s in w.prompts[u].done) ==> Enabled(w, Finish(u))
  {
  }

  /** How often the trainer has ended a step. */
  function Removals(events: seq<Event>): nat {
    if events == [] then 0 else Removals(events[..|events| - 1]) + if events[|events| - 1] == Remove then 1 else 0
  }

  /** The step counts the steps ended. */
  lemma {:induction false} StepCounts(worlds: seq<World>, events: seq<Event>, n: nat)
    requires IsRun(worlds, events) && n <= |events|
    ensures worlds[n].step == worlds[0].step + Removals(events[..n])
  {
    if n == 0 {
      assert events[..0] == [];
    } else {
      StepCounts(worlds, events, n - 1);
      RunStep(worlds, events, n - 1);
      assert events[..n][..n - 1] == events[..n - 1];
      StepOfStep(worlds[n - 1], events[n - 1]);
    }
  }

  lemma {:induction false} StepOfStep(w: World, e: Event)
    requires Enabled(w, e)
    ensures After(w, e).step == w.step + if e == Remove then 1 else 0
  {
    hide SessionKeys;
  }

  // A run to the end: one prompt of one session.

  function Put(some: set<string>, step: nat): Partition {
    map k | k in some :: Tags(Some(step), Some(Success))
  }

  function Scannable(some: set<string>, u: string, step: nat): Partition {
    map k | k in some + {u} :: Tags(Some(step), if k == u then Some(Finished) else Some(Success))
  }

  /** The world after its dispatch, with what has happened to the prompt since. */
  function Stage(w: World, u: string, done: set<nat>, phase: Phase, outputs: set<string>, queue: Partition): World {
    World(map[u := Prompt(w.step, 1, done, phase)], outputs, queue, None,
          map[u := Tags(Some(w.step), Some(Running))], Waiting, w.step)
  }

  lemma {:induction false} DispatchOne(w: World, u: string)
    requires Initial(w) && '_' !in u
    ensures Enabled(w, Dispatch(map[u := 1]))
    ensures After(w, Dispatch(map[u := 1])) == Stage(w, u, {}, Working, {}, map[])
  {
    var uids: map<string, nat> := map[u := 1];
    assert uids.Keys == {u};
    assert Added(map[], Marked({u}, w.step)) == map[u := Tags(Some(w.step), Some(Running))];
  }

  lemma {:induction false} PutOne(w: World, u: string, count: nat)
    ensures var t, some := Stage(w, u, {}, Working, {}, map[]), SessionKeys(u, 0, count);
            && Enabled(t, PutOutputs(u, 0, count))
            && After(t, PutOutputs(u, 0, count)) == Stage(w, u, {0}, Working, some, Put(some, w.step))
  {
    hide SessionKeys;
    var some := SessionKeys(u, 0, count);
    var t := Stage(w, u, {}, Working, {}, map[]);
    assert t.queue + Put(some, w.step) == Put(some, w.step) && t.outputs + some == some;
    assert {} + {0} == {0 as nat};
    assert t.prompts[u := Prompt(w.step, 1, {0}, Working)] == map[u := Prompt(w.step, 1, {0}, Working)];
  }

  lemma {:induction false} FinishOne(w: World, u: string, some: set<string>)
    ensures var t, queue := Stage(w, u, {0}, Working, some, Put(some, w.step)), Put(some, w.step);
            && Enabled(t, Finish(u))
            && After(t, Finish(u)) == Stage(w, u, {0}, Succeeded, some, queue[u := Tags(None, Some(Finished))])
  {
  }

  lemma {:induction false} PollOne(w: World, u: string, some: set<string>)
    requires u !in some
    ensures var queue := Put(some, w.step)[u := Tags(None, Some(Finished))];
            var t := Stage(w, u, {0}, Succeeded, some, queue);
            && Enabled(t, Poll) && Enabled(After(t, Poll), AddSnapshot)
            && After(After(t, Poll), AddSnapshot) == t.(buffer := Scannable(some, u, w.step))
  {
    var queue := Put(some, w.step)[u := Tags(None, Some(Finished))];
    var t := Stage(w, u, {0}, Succeeded, some, queue);
    assert Added(t.buffer, queue) == Scannable(some, u, w.step);
  }

  lemma {:induction false} SampleOne(t: World, u: string, some: set<string>, keys: seq<string>)
    requires t.trainer == Waiting && t.buffer == Scannable(some, u, t.step) && u !in some
    requires (forall i, j | 0 <= i < j < |keys| :: keys[i] != keys[j]) && forall k :: k in keys <==> k in some
    ensures Enabled(t, Sample(Got(keys)))
  {
  }

  lemma {:induction false} KeysAreOutputs(u: string, count: nat, keys: seq<string>)
    requires |keys| == count && forall i: nat | i < count :: keys[i] == Keys.OutputKey(u, 0, i)
    ensures forall k :: k in keys <==> k in SessionKeys(u, 0, count)
  {
    SessionKeysExactly(u, 0, count);
    hide SessionKeys, Keys.OutputKey;
    forall k ensures k in keys <==> k in SessionKeys(u, 0, count) {
      if k in SessionKeys(u, 0, count) {
        var i: nat :| i < count && k == Keys.OutputKey(u, 0, i);
        assert keys[i] == k;
      }
      if k in keys {
        var i: nat :| i < |keys| && keys[i] == k;
      }
    }
  }

  lemma {:induction false} OutputsAreNoUids(u: string, count: nat)
    requires '_' !in u
    ensures u !in SessionKeys(u, 0, count)
  {
    SessionKeysOwner(u, 0, count);
  }

  lemma {:induction false} DistinctOutputs(u: string, count: nat, keys: seq<string>)
    requires |keys| == count && forall i: nat | i < count :: keys[i] == Keys.OutputKey(u, 0, i)
    ensures forall i, j | 0 <= i < j < |keys| :: keys[i] != keys[j]
  {
    hide Keys.OutputKey;
    forall i, j | 0 <= i < j < |keys| ensures keys[i] != keys[j] {
      Keys.OutputKeyInjective(u, 0, i, u, 0, j);
    }
  }

  lemma {:induction false} SampleStage(w: World, u: string, count: nat, keys: seq<string>)
    requires '_' !in u && |keys| == count && forall i: nat | i < count :: keys[i] == Keys.OutputKey(u, 0, i)
    ensures var some := SessionKeys(u, 0, count);
            var queue := Put(some, w.step)[u := Tags(None, Some(Finished))];
            var t := Stage(w, u, {0}, Succeeded, some, queue).(buffer := Scannable(some, u, w.step));
            u !in some && Enabled(t, Sample(Got(keys)))
  {
    hide SessionKeys, Enabled, Scannable, Put, Keys.OutputKey;
    var some := SessionKeys(u, 0, count);
    OutputsAreNoUids(u, count);
    KeysAreOutputs(u, count, keys);
    DistinctOutputs(u, count, keys);
    var queue := Put(some, w.step)[u := Tags(None, Some(Finished))];
    SampleOne(Stage(w, u, {0}, Succeeded, some, queue).(buffer := Scannable(some, u, w.step)), u, some, keys);
  }

  /** Up to the end of the prompt. */
  lemma {:induction false} SomeRunFinishes(w: World, u: string, count: nat)
    returns (worlds: seq<World>, events: seq<Event>)
    requires Initial(w) && '_' !in u
    ensures events == [Dispatch(map[u := 1]), PutOutputs(u, 0, count), Finish(u)]
    ensures |worlds| == 4 && IsRun(worlds, events) && worlds[0] == w
    ensures var some := SessionKeys(u, 0, count);
            worlds[3] == Stage(w, u, {0}, Succeeded, some, Put(some, w.step)[u := Tags(None, Some(Finished))])
  {
    hide Enabled, After, Initial, SessionKeys, Put, Scannable, IsRun, Stage;
    var some := SessionKeys(u, 0, count);
    DispatchOne(w, u);
    PutOne(w, u, count);
    FinishOne(w, u, some);
    NoEvents(w);
    worlds, events := OneMore([w], [], Dispatch(map[u := 1]), Stage(w, u, {}, Working, {}, map[]));
    worlds, events := OneMore(worlds, events, PutOutputs(u, 0, count),
                              Stage(w, u, {0}, Working, some, Put(some, w.step)));
    worlds, events := OneMore(worlds, events, Finish(u),
      Stage(w, u, {0}, Succeeded, some, Put(some, w.step)[u := Tags(None, Some(Finished))]));
  }

  /** From any start, a prompt of one session with any number of outputs can be dispatched, put, finished,
      polled and sampled, with exactly these outputs. */
  lemma {:induction false} SomeRunSamples(w: World, u: string, count: nat, keys: seq<string>)
    returns (worlds: seq<World>, events: seq<Event>)
    requires Initial(w) && '_' !in u
    requires |keys| == count && forall i: nat | i < count :: keys[i] == Keys.OutputKey(u, 0, i)
    ensures events == [Dispatch(map[u := 1]), PutOutputs(u, 0, count), Finish(u)]
                      + [Poll, AddSnapshot, Sample(Got(keys))]
    ensures IsRun(worlds, events) && |worlds| == 7 && worlds[0] == w
  {
    hide Enabled, After, Initial, SessionKeys, Keys.OutputKey, Put, Scannable, IsRun, Stage;
    var some := SessionKeys(u, 0, count);
    SampleStage(w, u, count, keys);
    PollOne(w, u, some);
    worlds, events := SomeRunFinishes(w, u, count);
    var w3 := worlds[3];
    worlds, events := OneMore(worlds, events, Poll, After(w3, Poll));
    worlds, events := OneMore(worlds, events, AddSnapshot, w3.(buffer := Scannable(some, u, w.step)));
    worlds, events := OneMore(worlds, events, Sample(Got(keys)), After(worlds[5], Sample(Got(keys))));
  }

  lemma {:induction false} NoEvents(w: World)
    requires Initial(w)
    ensures IsRun([w], [])
  {
  }

  lemma {:induction false} OneMore(worlds: seq<World>, events: seq<Event>, e: Event, t: World)
    returns (worlds': seq<World>, events': seq<Event>)
    requires |worlds| == |events| + 1 && IsRun(worlds, events)
    requires Enabled(worlds[|events|], e) && t == After(worlds[|events|], e)
    ensures worlds' == worlds + [t] && events' == events + [e] && IsRun(worlds', events')
    ensures |worlds'| == |events'| + 1
  {
    hide Enabled, After, Initial;
    worlds', events' := worlds + [t], events + [e];
    forall i {:trigger events'[i]} | 0 <= i < |events'|
      ensures Enabled(worlds'[i], events'[i]) && worlds'[i + 1] == After(worlds'[i], events'[i])
    {
      if i < |events| {
        assert events'[i] == events[i];
      }
    }
  }
}
