/** The agent of a NIXL rank: its message and notification queues, and how the ranks are wired
    into a chain. */
module NixlAgent {
  import opened PythonSlices
  import opened Options
  import opened Weights

  // ------------------------------------------------------------------ topology

  function Somes<T>(s: seq<T>): (r: seq<Option<T>>)
    ensures |r| == |s|
  {
    seq(|s|, i requires 0 <= i < |s| => Some(s[i]))
  }

  /** `build_topology`: the agents before and after each rollout rank, from the metadata of all
      trainer ranks followed by all rollout ranks. */
  datatype Topology<T> = Topology(first: Option<T>, prev: seq<Option<T>>, next: seq<Option<T>>)

  function BuildTopology<T>(metadata: seq<T>, rollout: nat): Topology<T>
    requires 1 <= rollout < |metadata|
  {
    Topology(
      Some(metadata[|metadata| - rollout]),
      [Some(metadata[0])] + Somes(SliceOf(metadata, -(rollout as int), -1)),
      Somes(SliceOf(metadata, 1 - rollout, |metadata|)) + [None])
  }

  /** Rank 0 reads from nobody and offers to rank 1, every rank offers to the one after it, the
      last one to nobody. */
  predicate IsChain<T(==)>(t: Topology<T>, metadata: seq<T>, trainers: nat, rollout: nat)
    requires |metadata| == trainers + rollout && trainers >= 1 && rollout >= 1
  {
    && t.first == Some(metadata[trainers])
    && |t.prev| == rollout && |t.next| == rollout
    && (forall i | 0 <= i < rollout ::
          t.prev[i] == (if i == 0 then Some(metadata[0]) else Some(metadata[trainers + i - 1])))
    && forall i | 0 <= i < rollout ::
         t.next[i] == (if i == rollout - 1 then None else Some(metadata[trainers + i + 1]))
  }

  lemma {:induction false} ManyFormChain<T>(metadata: seq<T>, trainers: nat, rollout: nat)
    requires |metadata| == trainers + rollout && trainers >= 1 && rollout >= 2
    ensures IsChain(BuildTopology(metadata, rollout), metadata, trainers, rollout)
  {
    var after, before := SliceOf(metadata, 1 - rollout, |metadata|), SliceOf(metadata, -(rollout as int), -1);
    assert after == metadata[trainers + 1..];
    assert before == metadata[trainers..|metadata| - 1];
    hide SliceOf, Bound;
    assert |Somes(after) + [None]| == rollout && |[Some(metadata[0])] + Somes(before)| == rollout;
  }

  lemma {:induction false} OneFormsNoChain<T>(metadata: seq<T>, trainers: nat)
    requires |metadata| == trainers + 1 && trainers >= 1
    ensures !IsChain(BuildTopology(metadata, 1), metadata, trainers, 1)
  {
    assert SliceOf(metadata, 0, |metadata|) == metadata;
    assert |BuildTopology(metadata, 1).next| == trainers + 2;
  }

  /** The ranks form a chain exactly when there are two or more rollout ranks: with a single one
      the slice from -1 + 1 on is the whole list. */
  lemma {:induction false} ChainNeedsTwo<T>(metadata: seq<T>, trainers: nat, rollout: nat)
    requires |metadata| == trainers + rollout && trainers >= 1 && rollout >= 1
    ensures IsChain(BuildTopology(metadata, rollout), metadata, trainers, rollout) <==> rollout >= 2
  {
    hide IsChain;
    if rollout >= 2 {
      ManyFormChain(metadata, trainers, rollout);
    } else {
      OneFormsNoChain(metadata, trainers);
    }
  }

  // ------------------------------------------------------------------ queues

  datatype Tagged<T> = Tagged(sender: string, content: T)

  /** The contents that come from `name`, in order. */
  function From<T>(s: seq<Tagged<T>>, name: string): seq<T> {
    if s == [] then [] else
    From(s[..|s| - 1], name) + (if s[|s| - 1].sender == name then [s[|s| - 1].content] else [])
  }

  function Queue<T>(queues: map<string, seq<T>>, name: string): seq<T> {
    if name in queues then queues[name] else []
  }

  function Put<T>(queues: map<string, seq<T>>, item: Tagged<T>): map<string, seq<T>> {
    queues[item.sender := Queue(queues, item.sender) + [item.content]]
  }

  /** Each item joins the queue of its sender. */
  function Deliver<T>(queues: map<string, seq<T>>, items: seq<Tagged<T>>): map<string, seq<T>> {
    if items == [] then queues else Put(Deliver(queues, items[..|items| - 1]), items[|items| - 1])
  }

  lemma {:induction false} DeliverNext<T>(queues: map<string, seq<T>>, items: seq<Tagged<T>>, i: nat)
    requires i < |items|
    ensures Deliver(queues, items[..i + 1]) == Put(Deliver(queues, items[..i]), items[i])
  {
    assert items[..i + 1][..i] == items[..i];
  }

  lemma {:induction false} DeliverMore<T>(queues: map<string, seq<T>>, items: seq<Tagged<T>>, more: seq<Tagged<T>>)
    ensures Deliver(queues, items + more) == Deliver(Deliver(queues, items), more)
    decreases |more|
  {
    if more == [] {
      assert items + more == items;
    } else {
      DeliverMore(queues, items, more[..|more| - 1]);
      assert (items + more)[..|items + more| - 1] == items + more[..|more| - 1];
    }
  }

  /** Nothing is lost, and each sender's items keep their order. */
  lemma {:induction false} QueueAfter<T>(queues: map<string, seq<T>>, items: seq<Tagged<T>>, name: string)
    ensures Queue(Deliver(queues, items), name) == Queue(queues, name) + From(items, name)
    decreases |items|
  {
    if items != [] {
      QueueAfter(queues, items[..|items| - 1], name);
    }
  }

  function PopFirst<T>(queues: map<string, seq<T>>, name: string): map<string, seq<T>>
    requires Queue(queues, name) != []
  {
    queues[name := queues[name][1..]]
  }

  class Agent<M, K> {
    var messages: map<string, seq<M>>
    var notifications: map<string, seq<K>>

    constructor ()
      ensures messages == map[] && notifications == map[]
    {
      messages, notifications := map[], map[];
    }

    /** `read_message`: messages of other senders that arrive first are kept for later. `incoming`
        is what the socket is going to deliver; without enough of it the call would wait on. */
    method ReadMessage(name: string, incoming: seq<Tagged<M>>) returns (message: Option<M>, used: nat)
      modifies this`messages
      ensures used <= |incoming|
      ensures var all := Deliver(old(messages), incoming[..used]);
              if message == None then messages == all && Queue(all, name) == [] && used == |incoming|
              else Queue(all, name) != [] && message.value == Queue(all, name)[0] && messages == PopFirst(all, name)
      ensures forall k | 0 <= k < used :: Queue(Deliver(old(messages), incoming[..k]), name) == []
    {
      used := 0;
      while Queue(messages, name) == []
        invariant used <= |incoming| && messages == Deliver(old(messages), incoming[..used])
        invariant forall k | 0 <= k < used :: Queue(Deliver(old(messages), incoming[..k]), name) == []
        decreases |incoming| - used
      {
        if used == |incoming| {
          return None, used;
        }
        var m := incoming[used];
        DeliverNext(old(messages), incoming, used);
        messages := messages[m.sender := Queue(messages, m.sender) + [m.content]];
        used := used + 1;
      }
      message := Some(messages[name][0]);
      messages := messages[name := messages[name][1..]];
    }

    /** `get_notification`. Each poll delivers notifications sender by sender, and the loop over them
        reuses the variable that holds the name asked for. `answered` is the name it ends with. */
    method GetNotification(name: string, polls: seq<seq<Tagged<K>>>)
      returns (key: Option<K>, used: nat, answered: string)
      modifies this`notifications
      ensures used <= |polls| && answered == LastName(name, polls[..used])
      ensures var all := Deliver(old(notifications), Concat(polls[..used]));
              if key == None then notifications == all && used == |polls| && Queue(all, answered) == []
              else Queue(all, answered) != [] && key.value == Queue(all, answered)[0]
                   && notifications == PopFirst(all, answered)
      ensures forall k | 0 <= k < used :: StillEmpty(old(notifications), name, polls, k)
      ensures key.Some? <==> Queue(old(notifications), name) != [] || FirstDelivery(polls) < |polls|
      ensures key.Some? ==> (answered == name <==> ForTheOneAsked(old(notifications), name, polls))
    {
      hide Deliver, Concat, LastName, NameAfter, FirstDelivery, ForTheOneAsked;
      answered := name;
      used := 0;
      NoPolls(old(notifications), name, polls);
      while Queue(notifications, answered) == []
        invariant used <= |polls| && answered == LastName(name, polls[..used])
        invariant notifications == Deliver(old(notifications), Concat(polls[..used]))
        invariant forall k | 0 <= k < used :: StillEmpty(old(notifications), name, polls, k)
        decreases |polls| - used
      {
        assert StillEmpty(old(notifications), name, polls, used);
        if used == |polls| {
          NoAnswer(old(notifications), name, polls);
          return None, used, answered;
        }
        OnePollMore(old(notifications), name, polls, used);
        answered := TakePoll(answered, polls[used]);
        used := used + 1;
      }
      AnswerDecided(notifications, old(notifications), name, polls, used);
      key := Some(notifications[answered][0]);
      notifications := notifications[answered := notifications[answered][1..]];
    }

    /** The loop over the notifications of one poll. */
    method TakePoll(name: string, poll: seq<Tagged<K>>) returns (answered: string)
      modifies this`notifications
      ensures notifications == Deliver(old(notifications), poll) && answered == NameAfter(name, poll)
    {
      answered := name;
      for i := 0 to |poll|
        invariant notifications == Deliver(old(notifications), poll[..i])
        invariant answered == NameAfter(name, poll[..i])
      {
        var n := poll[i];
        DeliverNext(old(notifications), poll, i);
        answered := n.sender;
        notifications := notifications[n.sender := Queue(notifications, n.sender) + [n.content]];
      }
      assert poll[..|poll|] == poll;
    }
  }

  lemma {:induction false} NoPolls<T>(queues: map<string, seq<T>>, name: string, polls: seq<seq<Tagged<T>>>)
    ensures Deliver(queues, Concat(polls[..0])) == queues && LastName(name, polls[..0]) == name
  {
  }

  lemma {:induction false} OnePollMore<T>(
    queues: map<string, seq<T>>, name: string, polls: seq<seq<Tagged<T>>>, k: nat)
    requires k < |polls|
    ensures LastName(name, polls[..k + 1]) == NameAfter(LastName(name, polls[..k]), polls[k])
    ensures Deliver(queues, Concat(polls[..k + 1])) == Deliver(Deliver(queues, Concat(polls[..k])), polls[k])
  {
    assert polls[..k + 1][..k] == polls[..k];
    DeliverMore(queues, Concat(polls[..k]), polls[k]);
  }

  function Concat<T>(polls: seq<seq<T>>): seq<T> {
    if polls == [] then [] else Concat(polls[..|polls| - 1]) + polls[|polls| - 1]
  }

  function NameAfter<T>(name: string, poll: seq<Tagged<T>>): string {
    if poll == [] then name else poll[|poll| - 1].sender
  }

  function LastName<T>(name: string, polls: seq<seq<Tagged<T>>>): string {
    if polls == [] then name else NameAfter(LastName(name, polls[..|polls| - 1]), polls[|polls| - 1])
  }

  /** After `k` polls there is still nothing for the name that is looked for then. */
  predicate StillEmpty<T>(queues: map<string, seq<T>>, name: string, polls: seq<seq<Tagged<T>>>, k: nat)
    requires k <= |polls|
  {
    Queue(Deliver(queues, Concat(polls[..k])), LastName(name, polls[..k])) == []
  }

  /** The first poll that delivers something; all of them if none does. */
  function FirstDelivery<T>(polls: seq<seq<Tagged<T>>>): (f: nat)
    ensures f <= |polls| && (f < |polls| ==> polls[f] != []) && forall k | 0 <= k < f :: polls[k] == []
  {
    if polls == [] || polls[0] != [] then 0
    else
      var f := FirstDelivery(polls[1..]);
      assert forall k | 0 < k < f + 1 :: polls[k] == polls[1..][k - 1];
      f + 1
  }

  /** When the answer is for the rank asked for: it has a notification waiting, or the first poll that
      delivers anything ends with one of its own. */
  predicate ForTheOneAsked<T>(queues: map<string, seq<T>>, name: string, polls: seq<seq<Tagged<T>>>) {
    || Queue(queues, name) != []
    || var f := FirstDelivery(polls);
       f < |polls| && polls[f][|polls[f]| - 1].sender == name
  }

  lemma {:induction false} AskedHasOne<T>(queues: map<string, seq<T>>, name: string, polls: seq<seq<Tagged<T>>>)
    requires Queue(queues, name) != []
    ensures !StillEmpty(queues, name, polls, 0)
  {
  }

  /** Polls that deliver nothing change nothing. */
  lemma {:induction false} NothingDelivered<T>(name: string, polls: seq<seq<Tagged<T>>>, k: nat)
    requires k <= |polls| && forall i | 0 <= i < k :: polls[i] == []
    ensures Concat(polls[..k]) == [] && LastName(name, polls[..k]) == name
  {
    if k > 0 {
      NothingDelivered(name, polls, k - 1);
      assert polls[..k][..k - 1] == polls[..k - 1];
    }
  }

  /** A poll that delivers something fills the queue of the rank it names last. */
  lemma {:induction false} DeliveryFills<T>(queues: map<string, seq<T>>, poll: seq<Tagged<T>>)
    requires poll != []
    ensures Queue(Deliver(queues, poll), poll[|poll| - 1].sender) != []
  {
  }

  /** The first poll that delivers something is the last one that is made. */
  lemma {:induction false} OneDelivery<T>(queues: map<string, seq<T>>, name: string, polls: seq<seq<Tagged<T>>>)
    requires FirstDelivery(polls) < |polls|
    ensures var f := FirstDelivery(polls);
            && LastName(name, polls[..f + 1]) == polls[f][|polls[f]| - 1].sender
            && !StillEmpty(queues, name, polls, f + 1)
  {
    var f := FirstDelivery(polls);
    NothingDelivered(name, polls, f);
    assert polls[..f + 1][..f] == polls[..f];
    assert Concat(polls[..f + 1]) == Concat(polls[..f]) + polls[f] == polls[f];
    DeliveryFills(queues, polls[f]);
  }

  /** For all queues and polls: when the wait ends after `used` polls, the answer is for the rank asked
      for exactly in the two cases. */
  lemma {:induction false} AnswerDecided<T>(
    now: map<string, seq<T>>, queues: map<string, seq<T>>, name: string, polls: seq<seq<Tagged<T>>>, used: nat)
    requires used <= |polls| && now == Deliver(queues, Concat(polls[..used]))
    requires Queue(now, LastName(name, polls[..used])) != []
    requires forall k | 0 <= k < used :: StillEmpty(queues, name, polls, k)
    ensures Queue(queues, name) != [] || FirstDelivery(polls) < |polls|
    ensures LastName(name, polls[..used]) == name <==> ForTheOneAsked(queues, name, polls)
  {
    var f := FirstDelivery(polls);
    if Queue(queues, name) != [] {
      AskedHasOne(queues, name, polls);
      NothingDelivered(name, polls, 0);
    } else {
      if used <= f {
        NothingDelivered(name, polls, used);
      }
      assert f < used;
      OneDelivery(queues, name, polls);
      assert used == f + 1;
    }
  }

  /** The wait goes on through all polls only if there is nothing to hand out. */
  lemma {:induction false} NoAnswer<T>(queues: map<string, seq<T>>, name: string, polls: seq<seq<Tagged<T>>>)
    requires forall k | 0 <= k <= |polls| :: StillEmpty(queues, name, polls, k)
    ensures Queue(queues, name) == [] && FirstDelivery(polls) == |polls|
  {
    NothingDelivered(name, polls, 0);
    assert StillEmpty(queues, name, polls, 0);
    if FirstDelivery(polls) < |polls| {
      OneDelivery(queues, name, polls);
    }
  }

  predicate OnlyFrom<T>(polls: seq<seq<Tagged<T>>>, name: string) {
    forall i, j | 0 <= i < |polls| && 0 <= j < |polls[i]| :: polls[i][j].sender == name
  }

  /** In the chain only the next rank notifies, so an answer is always for the rank asked for. */
  method ChainAnswers<M, K>(agent: Agent<M, K>, name: string, polls: seq<seq<Tagged<K>>>)
    returns (key: Option<K>, used: nat, answered: string)
    requires OnlyFrom(polls, name)
    modifies agent`notifications
    ensures key.Some? ==> answered == name
    ensures key.Some? <==> Queue(old(agent.notifications), name) != [] || FirstDelivery(polls) < |polls|
  {
    key, used, answered := agent.GetNotification(name, polls);
  }

  /** With a second notifier the call can answer for the wrong one: here it is asked for one rank, and
      hands out what another has sent. */
  method OthersCanAnswer(name: string, other: string, theirs: int)
    returns (key: Option<int>, used: nat, answered: string)
    requires name != other
    ensures key == Some(theirs) && answered == other
  {
    var agent := new Agent<int, int>();
    var polls := [[Tagged(other, theirs)]];
    key, used, answered := agent.GetNotification(name, polls);
  }
}
