/** The rollout protocol on the "train" partition: trainer, workers, transfer queue, poller and
    replay buffer, in every interleaving. */
module Rollout {
  import opened Options
  import Keys
  import opened ReplayBuffer

  datatype Phase = Working | Succeeded | Failed

  /** A dispatched prompt: its step, how many sessions it runs, and which of them put their outputs. */
  datatype Prompt = Prompt(step: nat, sessions: nat, done: set<nat>, phase: Phase)

  datatype Trainer =
    | Ready          // between two steps
    | Waiting        // in `sample`
    | Training(keys: seq<string>)
    | Cleared(gone: set<string>)
    | Crashed        // a tag was missing

  /** `outputs` records the keys of all outputs ever put. */
  datatype World = World(
    prompts: map<string, Prompt>, outputs: set<string>, queue: Partition, snapshot: Option<Partition>,
    buffer: Partition, trainer: Trainer, step: nat)

  datatype Event =
    | Dispatch(uids: map<string, nat>)
    | PutOutputs(uid: string, session: nat, count: nat)
    | Finish(uid: string)
    | Fail(uid: string)
    | Poll
    | AddSnapshot
    | Sample(out: Scan)
    | Clear(gone: set<string>)
    | Remove

  /** The keys of the outputs of one session. */
  function SessionKeys(uid: string, session: nat, count: nat): set<string> {
    if count == 0 then {} else SessionKeys(uid, session, count - 1) + {Keys.OutputKey(uid, session, count - 1)}
  }

  /** These are the keys of all outputs of the session, one for each. */
  lemma {:induction false} SessionKeysExactly(uid: string, session: nat, count: nat)
    ensures forall k :: k in SessionKeys(uid, session, count) <==>
                        exists i: nat :: i < count && k == Keys.OutputKey(uid, session, i)
    ensures |SessionKeys(uid, session, count)| == count
  {
    hide Keys.OutputKey;
    if count > 0 {
      SessionKeysExactly(uid, session, count - 1);
      forall i: nat | i < count - 1 ensures Keys.OutputKey(uid, session, i) != Keys.OutputKey(uid, session, count - 1) {
        Keys.OutputKeyInjective(uid, session, i, uid, session, count - 1);
      }
      assert Keys.OutputKey(uid, session, count - 1) in SessionKeys(uid, session, count);
    }
  }

  /** The prompt an output belongs to. */
  function OwnerOf(key: string): string {
    Keys.RSplit(key, 2)[0]
  }

  lemma {:induction false} SessionKeysOwner(uid: string, session: nat, count: nat)
    ensures forall k | k in SessionKeys(uid, session, count) :: OwnerOf(k) == uid && '_' in k
  {
    hide Keys.RSplit, Keys.OutputKey, Keys.Print, Keys.ParseInt;
    if count > 0 {
      SessionKeysOwner(uid, session, count - 1);
      Keys.SplitUndoesPrint(uid, session, count - 1);
      Keys.OutputKeyIsNoUid(uid, session, count - 1);
    }
  }

  /** Every session has put what it produced. */
  predicate AllDone(p: Prompt) {
    forall i: nat | i < p.sessions :: i in p.done
  }

  function Marked(uids: set<string>, step: nat): Partition {
    map u | u in uids :: Tags(Some(step), Some(Running))
  }

  /** What each process may do next. */
  ghost predicate Enabled(w: World, e: Event) {
    match e
    case Dispatch(uids) => w.trainer == Ready && forall u | u in uids :: u !in w.prompts && '_' !in u
    case PutOutputs(uid, session, count) =>
      && uid in w.prompts && session < w.prompts[uid].sessions && session !in w.prompts[uid].done
      && w.prompts[uid].phase != Succeeded
    case Finish(uid) => uid in w.prompts && w.prompts[uid].phase == Working && AllDone(w.prompts[uid])
    case Fail(uid) => uid in w.prompts && w.prompts[uid].phase == Working
    case Poll => w.snapshot == None
    case AddSnapshot => w.snapshot.Some?
    case Sample(out) => w.trainer == Waiting && Scanned(w.buffer, Some(w.step), out)
    case Clear(gone) => w.trainer.Training? && forall k | k in gone :: k in w.trainer.keys
    case Remove => w.trainer.Cleared?
  }

  function After(w: World, e: Event): World
    requires Enabled(w, e)
  {
    match e
    case Dispatch(uids) =>
      w.(buffer := Added(w.buffer, Marked(uids.Keys, w.step)),
         prompts := w.prompts + (map u | u in uids :: Prompt(w.step, uids[u], {}, Working)), trainer := Waiting)
    case PutOutputs(uid, session, count) =>
      var p, keys := w.prompts[uid], SessionKeys(uid, session, count);
      w.(queue := w.queue + (map k | k in keys :: Tags(Some(p.step), Some(Success))),
         outputs := w.outputs + keys,
         prompts := w.prompts[uid := p.(done := p.done + {session})])
    case Finish(uid) =>
      w.(queue := w.queue[uid := Tags(None, Some(Finished))],
         prompts := w.prompts[uid := w.prompts[uid].(phase := Succeeded)])
    case Fail(uid) =>
      w.(queue := w.queue[uid := Tags(None, Some(Failure))],
         prompts := w.prompts[uid := w.prompts[uid].(phase := Failed)])
    case Poll => w.(snapshot := Some(w.queue))
    case AddSnapshot => w.(buffer := Added(w.buffer, w.snapshot.value), snapshot := None)
    case Sample(out) =>
      w.(trainer := match out case Wait => Waiting case Got(keys) => Training(keys) case MissingTag => Crashed)
    case Clear(gone) => w.(queue := w.queue - gone, trainer := Cleared(gone))
    case Remove => w.(buffer := w.buffer - w.trainer.gone, trainer := Ready, step := w.step + 1)
  }

  predicate Initial(w: World) {
    && w.prompts == map[] && w.outputs == {} && w.queue == map[] && w.snapshot == None && w.buffer == map[]
    && w.trainer == Ready
  }

  // ------------------------------------------------------------------ invariant

  /** `k` is an output of a prompt of this step. */
  ghost predicate OutputOf(w: World, k: string, step: nat) {
    k in w.outputs && OwnerOf(k) in w.prompts && w.prompts[OwnerOf(k)].step == step
  }

  /** Prompts and outputs never share a key, and every output belongs to a prompt. */
  ghost predicate NamesInv(w: World) {
    && (forall u | u in w.prompts :: '_' !in u)
    && (forall k | k in w.outputs :: '_' in k && OwnerOf(k) in w.prompts)
  }

  /** The trainer is at the step of its newest prompts. */
  ghost predicate StepInv(w: World) {
    && w.trainer != Crashed
    && (forall u | u in w.prompts ::
          w.prompts[u].step <= w.step && (w.trainer == Ready ==> w.prompts[u].step < w.step))
    && (w.trainer.Training? ==> forall k | k in w.trainer.keys :: OutputOf(w, k, w.step))
    && (w.trainer.Cleared? ==> forall k | k in w.trainer.gone :: OutputOf(w, k, w.step))
  }

  ghost predicate OutputTags(w: World, k: string, t: Tags) {
    k in w.outputs && OwnerOf(k) in w.prompts && t == Tags(Some(w.prompts[OwnerOf(k)].step), Some(Success))
  }

  predicate EndTag(w: World, k: string, t: Tags) {
    && k in w.prompts && t.steps == None
    && ((t.status == Some(Finished) && w.prompts[k].phase == Succeeded)
        || (t.status == Some(Failure) && w.prompts[k].phase == Failed))
  }

  /** What workers put: outputs with all their tags, and the status with which a prompt ended. */
  ghost predicate QueueInv(w: World, queue: Partition) {
    forall k | k in queue :: OutputTags(w, k, queue[k]) || EndTag(w, k, queue[k])
  }

  /** What the sampler scans: the step of a prompt survives the merge with a later status. */
  predicate PromptTags(w: World, k: string, t: Tags) {
    && k in w.prompts && t.steps == Some(w.prompts[k].step)
    && (t.status == Some(Running)
        || (t.status == Some(Finished) && w.prompts[k].phase == Succeeded)
        || (t.status == Some(Failure) && w.prompts[k].phase == Failed))
  }

  ghost predicate Entries(w: World, buffer: Partition) {
    forall k | k in buffer :: OutputTags(w, k, buffer[k]) || PromptTags(w, k, buffer[k])
  }

  ghost predicate AllMarked(w: World) {
    forall u | u in w.prompts :: u in w.buffer
  }

  /** A prompt that ended stays so in the queue, after every session has put its outputs. */
  ghost predicate EndedInv(w: World) {
    forall u | u in w.prompts && w.prompts[u].phase != Working ::
      u in w.queue && (w.prompts[u].phase == Succeeded ==> AllDone(w.prompts[u]))
  }

  /** Nothing of the step being sampled is cleared yet. */
  ghost predicate Queued(w: World) {
    w.trainer == Waiting ==> forall k | OutputOf(w, k, w.step) :: k in w.queue
  }

  /** Where a prompt of the step being sampled is seen to have finished, all its outputs are seen. */
  ghost predicate Complete(w: World, p: Partition) {
    w.trainer == Waiting ==>
      forall k | OutputOf(w, k, w.step) && OwnerOf(k) in p && p[OwnerOf(k)].status == Some(Finished) :: k in p
  }

  ghost predicate Inv(w: World) {
    && NamesInv(w) && StepInv(w) && EndedInv(w)
    && QueueInv(w, w.queue) && (w.snapshot.Some? ==> QueueInv(w, w.snapshot.value))
    && AllMarked(w) && Entries(w, w.buffer)
    && Queued(w) && (w.snapshot.Some? ==> Complete(w, w.snapshot.value)) && Complete(w, w.buffer)
  }

  lemma {:induction false} InitialInv(w: World)
    requires Initial(w)
    ensures Inv(w)
  {
  }

  // ------------------------------------------------------------------ what later states keep

  /** Outputs are only added, a prompt keeps its step, and an end is final. */
  ghost predicate Later(w: World, w': World) {
    && w.outputs <= w'.outputs
    && forall u | u in w.prompts ::
         && u in w'.prompts && w'.prompts[u].step == w.prompts[u].step
         && (w.prompts[u].phase != Working ==> w'.prompts[u].phase == w.prompts[u].phase)
  }

  lemma {:induction false} QueueLater(w: World, w': World, queue: Partition)
    requires QueueInv(w, queue) && Later(w, w')
    ensures QueueInv(w', queue)
  {
    hide OwnerOf;
  }

  lemma {:induction false} EntriesLater(w: World, w': World, buffer: Partition)
    requires Entries(w, buffer) && Later(w, w')
    ensures Entries(w', buffer)
  {
    hide OwnerOf;
  }

  /** A prompt that is seen to have finished has. */
  ghost predicate Truthful(w: World, p: Partition) {
    forall u | u in p && u in w.prompts && p[u].status == Some(Finished) :: w.prompts[u].phase == Succeeded
  }

  lemma {:induction false} QueueIsTruthful(w: World, queue: Partition)
    requires QueueInv(w, queue)
    ensures Truthful(w, queue)
  {
    hide OwnerOf;
  }

  lemma {:induction false} EntriesAreTruthful(w: World, buffer: Partition)
    requires Entries(w, buffer)
    ensures Truthful(w, buffer)
  {
    hide OwnerOf;
  }

  /** New outputs come from prompts that have not finished. */
  lemma {:induction false} CompleteLater(w: World, w': World, p: Partition)
    requires Complete(w, p) && Truthful(w, p) && Later(w, w') && w'.step == w.step && w'.prompts.Keys == w.prompts.Keys
    requires w.trainer == Waiting || w'.trainer != Waiting
    requires forall k | k in w'.outputs && k !in w.outputs ::
               OwnerOf(k) in w.prompts && w.prompts[OwnerOf(k)].phase != Succeeded
    ensures Complete(w', p)
  {
    hide OwnerOf;
  }

  // ------------------------------------------------------------------ workers

  lemma {:induction false} DispatchKeepsNames(w: World, uids: map<string, nat>)
    requires NamesInv(w) && StepInv(w) && EndedInv(w) && Enabled(w, Dispatch(uids))
    ensures var w' := After(w, Dispatch(uids)); Later(w, w') && NamesInv(w') && StepInv(w') && EndedInv(w')
    ensures var w' := After(w, Dispatch(uids)); forall k :: !OutputOf(w', k, w'.step)
  {
    hide OwnerOf;
  }

  lemma {:induction false} DispatchKeepsBuffer(w: World, uids: map<string, nat>)
    requires NamesInv(w) && AllMarked(w) && Entries(w, w.buffer) && Enabled(w, Dispatch(uids))
    ensures var w' := After(w, Dispatch(uids)); AllMarked(w') && Entries(w', w'.buffer)
  {
    hide OwnerOf;
    assert forall k | k in w.buffer :: k !in uids;
  }

  lemma {:induction false} DispatchKeeps(w: World, uids: map<string, nat>)
    requires Inv(w) && Enabled(w, Dispatch(uids))
    ensures Inv(After(w, Dispatch(uids)))
  {
    hide OwnerOf, NamesInv, StepInv, EndedInv, QueueInv, Entries, AllMarked;
    var w' := After(w, Dispatch(uids));
    DispatchKeepsNames(w, uids);
    DispatchKeepsBuffer(w, uids);
    QueueLater(w, w', w.queue);
    if w.snapshot.Some? {
      QueueLater(w, w', w.snapshot.value);
    }
  }

  lemma {:induction false} PutKeepsNames(w: World, uid: string, session: nat, count: nat)
    requires NamesInv(w) && StepInv(w) && EndedInv(w) && Enabled(w, PutOutputs(uid, session, count))
    ensures var w' := After(w, PutOutputs(uid, session, count));
            && Later(w, w') && NamesInv(w') && StepInv(w') && EndedInv(w')
            && forall k | k in w'.outputs && k !in w.outputs :: OwnerOf(k) == uid
  {
    SessionKeysOwner(uid, session, count);
    hide OwnerOf, SessionKeys;
  }

  lemma {:induction false} PutKeepsQueue(w: World, uid: string, session: nat, count: nat)
    requires NamesInv(w) && QueueInv(w, w.queue) && Queued(w) && Enabled(w, PutOutputs(uid, session, count))
    ensures var w' := After(w, PutOutputs(uid, session, count)); QueueInv(w', w'.queue) && Queued(w')
  {
    SessionKeysOwner(uid, session, count);
    hide OwnerOf, SessionKeys;
    var w' := After(w, PutOutputs(uid, session, count));
    assert Later(w, w');
    QueueLater(w, w', w.queue);
  }

  lemma {:induction false} PutKeeps(w: World, uid: string, session: nat, count: nat)
    requires Inv(w) && Enabled(w, PutOutputs(uid, session, count))
    ensures Inv(After(w, PutOutputs(uid, session, count)))
  {
    hide OwnerOf, SessionKeys, NamesInv, StepInv, EndedInv, QueueInv, Entries, Queued, Truthful, Complete, Later;
    var w' := After(w, PutOutputs(uid, session, count));
    PutKeepsNames(w, uid, session, count);
    PutKeepsQueue(w, uid, session, count);
    EntriesLater(w, w', w.buffer);
    EntriesAreTruthful(w, w.buffer);
    CompleteLater(w, w', w.buffer);
    if w.snapshot.Some? {
      QueueLater(w, w', w.snapshot.value);
      QueueIsTruthful(w, w.snapshot.value);
      CompleteLater(w, w', w.snapshot.value);
    }
  }

  /** A prompt ends, one way or the other. */
  function Ended(w: World, uid: string, status: Status, phase: Phase): World
    requires uid in w.prompts
  {
    w.(queue := w.queue[uid := Tags(None, Some(status))],
       prompts := w.prompts[uid := w.prompts[uid].(phase := phase)])
  }

  lemma {:induction false} EndKeepsNames(w: World, uid: string, status: Status, phase: Phase)
    requires NamesInv(w) && StepInv(w) && EndedInv(w) && uid in w.prompts && w.prompts[uid].phase == Working
    requires || (status == Finished && phase == Succeeded && AllDone(w.prompts[uid]))
             || (status == Failure && phase == Failed)
    ensures var w' := Ended(w, uid, status, phase); Later(w, w') && NamesInv(w') && StepInv(w') && EndedInv(w')
  {
    hide OwnerOf;
  }

  lemma {:induction false} EndKeepsQueue(w: World, uid: string, status: Status, phase: Phase)
    requires NamesInv(w) && QueueInv(w, w.queue) && Queued(w) && uid in w.prompts && w.prompts[uid].phase == Working
    requires (status == Finished && phase == Succeeded) || (status == Failure && phase == Failed)
    ensures var w' := Ended(w, uid, status, phase); QueueInv(w', w'.queue) && Queued(w')
  {
    hide OwnerOf;
    assert Later(w, Ended(w, uid, status, phase));
    QueueLater(w, Ended(w, uid, status, phase), w.queue);
  }

  lemma {:induction false} EndKeeps(w: World, uid: string, status: Status, phase: Phase)
    requires Inv(w) && uid in w.prompts && w.prompts[uid].phase == Working
    requires || (status == Finished && phase == Succeeded && AllDone(w.prompts[uid]))
             || (status == Failure && phase == Failed)
    ensures Inv(Ended(w, uid, status, phase))
  {
    hide OwnerOf, NamesInv, StepInv, EndedInv, QueueInv, Entries, Queued, Truthful, Complete, Later;
    var w' := Ended(w, uid, status, phase);
    EndKeepsNames(w, uid, status, phase);
    EndKeepsQueue(w, uid, status, phase);
    EntriesLater(w, w', w.buffer);
    EntriesAreTruthful(w, w.buffer);
    CompleteLater(w, w', w.buffer);
    if w.snapshot.Some? {
      QueueLater(w, w', w.snapshot.value);
      QueueIsTruthful(w, w.snapshot.value);
      CompleteLater(w, w', w.snapshot.value);
    }
  }

  // ------------------------------------------------------------------ poller

  lemma {:induction false} PollKeeps(w: World)
    requires Inv(w) && Enabled(w, Poll)
    ensures Inv(After(w, Poll))
  {
    hide OwnerOf, QueueInv, Entries;
    QueueLater(w, After(w, Poll), w.queue);
    EntriesLater(w, After(w, Poll), w.buffer);
  }

  lemma {:induction false} AddKeepsEntries(w: World, items: Partition)
    requires NamesInv(w) && QueueInv(w, items) && Entries(w, w.buffer) && AllMarked(w)
    ensures Entries(w, Added(w.buffer, items))
  {
    hide OwnerOf;
    forall k | k in Added(w.buffer, items)
      ensures OutputTags(w, k, Added(w.buffer, items)[k]) || PromptTags(w, k, Added(w.buffer, items)[k])
    {
    }
  }

  lemma {:induction false} AddKeepsComplete(w: World, items: Partition)
    requires QueueInv(w, items) && Complete(w, items) && Complete(w, w.buffer)
    ensures Complete(w, Added(w.buffer, items))
  {
    hide OwnerOf;
  }

  lemma {:induction false} AddKeeps(w: World)
    requires Inv(w) && Enabled(w, AddSnapshot)
    ensures Inv(After(w, AddSnapshot))
  {
    hide OwnerOf, QueueInv, Entries;
    var items := w.snapshot.value;
    AddKeepsEntries(w, items);
    AddKeepsComplete(w, items);
    EntriesLater(w, After(w, AddSnapshot), Added(w.buffer, items));
    QueueLater(w, After(w, AddSnapshot), w.queue);
  }

  // ------------------------------------------------------------------ trainer

  lemma {:induction false} AlwaysTagged(w: World)
    requires Entries(w, w.buffer)
    ensures AllTagged(w.buffer)
  {
  }

  /** What `sample` returns: outputs of this step only, after every prompt of the step has ended, and
      every output of each prompt that did not fail. */
  ghost predicate WholeStep(w: World, keys: seq<string>) {
    && (forall k | k in keys :: OutputOf(w, k, w.step))
    && (forall u | u in w.prompts && w.prompts[u].step == w.step :: w.prompts[u].phase != Working)
    && (forall u | u in w.prompts && w.prompts[u].step == w.step && w.prompts[u].phase == Succeeded ::
          AllDone(w.prompts[u]) && forall k | k in w.outputs && OwnerOf(k) == u :: k in keys)
  }

  lemma {:induction false} SampleIsWhole(w: World, keys: seq<string>)
    requires Inv(w) && Enabled(w, Sample(Got(keys)))
    ensures WholeStep(w, keys)
  {
    forall u | u in w.prompts && w.prompts[u].step == w.step
      ensures w.prompts[u].phase != Working
      ensures w.prompts[u].phase == Succeeded ==> w.buffer[u].status == Some(Finished)
    {
      assert u in w.buffer;
      assert '_' !in u;
      assert PromptTags(w, u, w.buffer[u]);
    }
    forall u, k | u in w.prompts && w.prompts[u].step == w.step && w.prompts[u].phase == Succeeded
                  && k in w.outputs && OwnerOf(k) == u
      ensures k in keys
    {
      assert OutputOf(w, k, w.step);
      assert OutputTags(w, k, w.buffer[k]);
    }
    forall k | k in keys ensures OutputOf(w, k, w.step) {
      assert k in w.buffer;
    }
  }

  lemma {:induction false} SampleKeeps(w: World, out: Scan)
    requires Inv(w) && Enabled(w, Sample(out))
    ensures Inv(After(w, Sample(out)))
  {
    hide OwnerOf, SessionKeys;
    AlwaysTagged(w);
    if out.Got? {
      SampleIsWhole(w, out.keys);
    }
  }

  lemma {:induction false} ClearKeeps(w: World, gone: set<string>)
    requires Inv(w) && Enabled(w, Clear(gone))
    ensures Inv(After(w, Clear(gone)))
  {
    hide OwnerOf, SessionKeys;
  }

  lemma {:induction false} RemoveKeeps(w: World)
    requires Inv(w) && Enabled(w, Remove)
    ensures Inv(After(w, Remove))
  {
    hide OwnerOf, SessionKeys;
  }

  // ------------------------------------------------------------------ runs

  lemma {:induction false} StepKeeps(w: World, e: Event)
    requires Inv(w) && Enabled(w, e)
    ensures Inv(After(w, e))
  {
    hide Inv;
    match e
    case Dispatch(uids) => DispatchKeeps(w, uids);
    case PutOutputs(uid, session, count) => PutKeeps(w, uid, session, count);
    case Finish(uid) => EndKeeps(w, uid, Finished, Succeeded);
    case Fail(uid) => EndKeeps(w, uid, Failure, Failed);
    case Poll => PollKeeps(w);
    case AddSnapshot => AddKeeps(w);
    case Sample(out) => SampleKeeps(w, out);
    case Clear(gone) => ClearKeeps(w, gone);
    case Remove => RemoveKeeps(w);
  }

  ghost predicate IsRun(worlds: seq<World>, events: seq<Event>) {
    && |worlds| == |events| + 1 && Initial(worlds[0])
    && forall i {:trigger events[i]} | 0 <= i < |events| ::
         Enabled(worlds[i], events[i]) && worlds[i + 1] == After(worlds[i], events[i])
  }

  lemma {:induction false} RunKeeps(worlds: seq<World>, events: seq<Event>, n: nat)
    requires IsRun(worlds, events) && n <= |events|
    ensures Inv(worlds[n])
  {
    hide Inv, Enabled, After, Initial;
    if n == 0 {
      InitialInv(worlds[0]);
    } else {
      RunKeeps(worlds, events, n - 1);
      var e := events[n - 1];
      StepKeeps(worlds[n - 1], e);
    }
  }

  /** In every interleaving no scan meets an entry without its tags, and every sample is whole. */
  lemma {:induction false} EverySampleIsWhole(worlds: seq<World>, events: seq<Event>, i: nat)
    requires IsRun(worlds, events) && i < |events| && events[i].Sample?
    ensures events[i].out != MissingTag
    ensures events[i].out.Got? ==> WholeStep(worlds[i], events[i].out.keys)
  {
    RunKeeps(worlds, events, i);
    AlwaysTagged(worlds[i]);
    if events[i].out.Got? {
      SampleIsWhole(worlds[i], events[i].out.keys);
    }
  }

  /** `sample` does not wait for ever: once every prompt of the step has ended, the scan after one
      more poll returns. */
  lemma {:induction false} FreshPollEndsWait(w: World, out: Scan)
    requires Inv(w) && w.trainer == Waiting && w.snapshot == None
    requires forall u | u in w.prompts && w.prompts[u].step == w.step :: w.prompts[u].phase != Working
    requires Scanned(After(After(w, Poll), AddSnapshot).buffer, Some(w.step), out)
    ensures out.Got?
  {
    PollKeeps(w);
    AddKeeps(After(w, Poll));
    var w' := After(After(w, Poll), AddSnapshot);
    AlwaysTagged(w');
    forall k | k in w'.buffer ensures !IsOf(w'.buffer[k], Some(w.step), Running) {
      if PromptTags(w', k, w'.buffer[k]) && w.prompts[k].step == w.step {
        assert k in w.queue && EndTag(w, k, w.queue[k]);
      }
    }
  }
}
