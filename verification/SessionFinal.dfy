/** Choosing the final output of each session, and giving its score to the whole session. */
module SessionFinal {
  import opened Options
  import opened Keys

  /** A key with three fields, the last of them a number. */
  predicate WellFormed(key: string) {
    |RSplit(key, 2)| == 3 && ParseInt(RSplit(key, 2)[2]).Some?
  }

  predicate AllWellFormed(keys: seq<string>) {
    forall i | 0 <= i < |keys| :: WellFormed(keys[i])
  }

  function SessionOf(key: string): string
    requires WellFormed(key)
  {
    RSplit(key, 2)[0] + "_" + RSplit(key, 2)[1]
  }

  function IndexOf(key: string): int
    requires WellFormed(key)
  {
    ParseInt(RSplit(key, 2)[2]).value
  }

  lemma {:induction false} FieldsOfOutputKey(uid: string, session: nat, index: nat)
    ensures var key := OutputKey(uid, session, index);
            WellFormed(key) && SessionOf(key) == SessionKey(uid, session) && IndexOf(key) == index
  {
    SplitUndoesPrint(uid, session, index);
  }

  /** Row `r` is the final output of the session: the first of those with the highest index. */
  ghost predicate IsFinal(keys: seq<string>, n: nat, session: string, r: nat)
    requires n <= |keys| && AllWellFormed(keys)
  {
    && r < n && SessionOf(keys[r]) == session
    && (forall j | 0 <= j < n && SessionOf(keys[j]) == session :: IndexOf(keys[j]) <= IndexOf(keys[r]))
    && (forall j | 0 <= j < r && SessionOf(keys[j]) == session :: IndexOf(keys[j]) < IndexOf(keys[r]))
  }

  lemma {:induction false} OneFinal(keys: seq<string>, session: string, r: nat, r': nat)
    requires AllWellFormed(keys) && IsFinal(keys, |keys|, session, r) && IsFinal(keys, |keys|, session, r')
    ensures r == r'
  {
  }

  /** The dictionary `final_sessions`, and the order in which its keys were inserted. */
  datatype Sessions = Sessions(best: map<string, (int, nat)>, order: seq<string>)

  ghost predicate BestSoFar(keys: seq<string>, n: nat, best: map<string, (int, nat)>)
    requires n <= |keys| && AllWellFormed(keys)
  {
    && (forall i | 0 <= i < n :: SessionOf(keys[i]) in best)
    && forall s | s in best ::
         IsFinal(keys, n, s, best[s].1) && best[s].0 == IndexOf(keys[best[s].1])
  }

  /** How one more row changes the dictionary. */
  function Seen(best: map<string, (int, nat)>, key: string, row: nat): map<string, (int, nat)>
    requires WellFormed(key)
  {
    var s := SessionOf(key);
    if s !in best || best[s].0 < IndexOf(key) then best[s := (IndexOf(key), row)] else best
  }

  lemma {:induction false} SeenKeepsBest(keys: seq<string>, n: nat, best: map<string, (int, nat)>)
    requires n < |keys| && AllWellFormed(keys) && BestSoFar(keys, n, best)
    ensures BestSoFar(keys, n + 1, Seen(best, keys[n], n))
  {
    hide SessionOf, IndexOf, WellFormed;
    var best' := Seen(best, keys[n], n);
    forall s | s in best'
      ensures IsFinal(keys, n + 1, s, best'[s].1) && best'[s].0 == IndexOf(keys[best'[s].1])
    {
      if s in best {
        assert IsFinal(keys, n, s, best[s].1);
      }
    }
  }

  lemma {:induction false} NothingSeen(keys: seq<string>)
    requires AllWellFormed(keys)
    ensures BestSoFar(keys, 0, map[])
  {
  }

  ghost predicate Listed(m: map<string, (int, nat)>, order: seq<string>) {
    && (forall i, j | 0 <= i < j < |order| :: order[i] != order[j])
    && forall s :: s in order <==> s in m
  }

  /** The first loop of `compute_advantage_for_multi_trajectories`; it fails on a key without three
      fields or without a number. */
  method CollectSessions(keys: seq<string>) returns (ok: bool, sessions: Sessions, rowSessions: seq<string>)
    ensures ok <==> AllWellFormed(keys)
    ensures ok ==> BestSoFar(keys, |keys|, sessions.best) && Listed(sessions.best, sessions.order)
    ensures ok ==> |rowSessions| == |keys| && forall i | 0 <= i < |keys| :: rowSessions[i] == SessionOf(keys[i])
  {
    hide BestSoFar, IsFinal, RSplit, ParseInt;
    sessions, rowSessions := Sessions(map[], []), [];
    NothingSeen(keys[..0]);
    for i := 0 to |keys|
      invariant forall j | 0 <= j < i :: WellFormed(keys[j])
      invariant |rowSessions| == i && forall j | 0 <= j < i :: rowSessions[j] == SessionOf(keys[j])
      invariant BestSoFar(keys[..i], i, sessions.best) && Listed(sessions.best, sessions.order)
    {
      var fields := RSplit(keys[i], 2);
      if |fields| != 3 {
        return false, sessions, rowSessions;
      }
      var index := ParseInt(fields[2]);
      if index == None {
        return false, sessions, rowSessions;
      }
      var session := fields[0] + "_" + fields[1];
      rowSessions := rowSessions + [session];
      ghost var best := sessions.best;
      if session !in sessions.best {
        sessions := Sessions(sessions.best[session := (index.value, i)], sessions.order + [session]);
      } else if sessions.best[session].0 < index.value {
        sessions := sessions.(best := sessions.best[session := (index.value, i)]);
      }
      LongerPrefix(keys, i, best);
      assert sessions.best == Seen(best, keys[i], i);
    }
    assert keys[..|keys|] == keys;
    ok := true;
  }

  lemma {:induction false} LongerPrefix(keys: seq<string>, i: nat, best: map<string, (int, nat)>)
    requires i < |keys| && AllWellFormed(keys[..i]) && WellFormed(keys[i]) && BestSoFar(keys[..i], i, best)
    ensures AllWellFormed(keys[..i + 1])
    ensures BestSoFar(keys[..i + 1], i + 1, Seen(best, keys[i], i))
  {
    hide SessionOf, IndexOf, WellFormed;
    var now := keys[..i + 1];
    assert now[i] == keys[i] && forall j | 0 <= j < i :: now[j] == keys[..i][j];
    forall s | s in best ensures IsFinal(now, i, s, best[s].1) && best[s].0 == IndexOf(now[best[s].1]) {
      assert IsFinal(keys[..i], i, s, best[s].1);
    }
    assert forall j | 0 <= j < i :: SessionOf(now[j]) == SessionOf(keys[..i][j]);
    SeenKeepsBest(now, i, best);
  }

  /** The second loop and the row map: which rows are final, and which of them each row looks at. */
  method LocalIndices(sessions: Sessions, rowSessions: seq<string>)
    returns (finals: seq<nat>, rowToLocal: seq<nat>)
    requires Listed(sessions.best, sessions.order)
    requires forall i | 0 <= i < |rowSessions| :: rowSessions[i] in sessions.best
    ensures |finals| == |sessions.order|
    ensures forall a | 0 <= a < |finals| :: finals[a] == sessions.best[sessions.order[a]].1
    ensures |rowToLocal| == |rowSessions|
    ensures forall i | 0 <= i < |rowSessions| ::
              rowToLocal[i] < |finals| && sessions.order[rowToLocal[i]] == rowSessions[i]
  {
    finals, rowToLocal := [], [];
    var local: map<string, nat> := map[];
    for a := 0 to |sessions.order|
      invariant |finals| == a
      invariant forall b | 0 <= b < a :: finals[b] == sessions.best[sessions.order[b]].1
      invariant forall b | 0 <= b < a :: sessions.order[b] in local && local[sessions.order[b]] == b
    {
      finals := finals + [sessions.best[sessions.order[a]].1];
      local := local[sessions.order[a] := |finals| - 1];
    }
    for i := 0 to |rowSessions|
      invariant |rowToLocal| == i
      invariant forall j | 0 <= j < i ::
                  rowToLocal[j] < |finals| && sessions.order[rowToLocal[j]] == rowSessions[j]
    {
      rowToLocal := rowToLocal + [local[rowSessions[i]]];
    }
  }

  // ------------------------------------------------------------------ scores

  /** The first position of the largest entry: `argmax`. */
  method ArgMax(mask: seq<real>) returns (at: nat)
    requires mask != []
    ensures at < |mask| && forall k | 0 <= k < |mask| :: mask[k] <= mask[at]
    ensures forall k | 0 <= k < at :: mask[k] < mask[at]
  {
    at := 0;
    for k := 1 to |mask|
      invariant at < k && forall j | 0 <= j < k :: mask[j] <= mask[at]
      invariant forall j | 0 <= j < at :: mask[j] < mask[at]
    {
      if mask[k] > mask[at] {
        at := k;
      }
    }
  }

  /** What a group-relative estimator gives: one number for each row, spread over its mask. */
  predicate SpreadOver(advantages: seq<seq<real>>, masks: seq<seq<real>>, scores: seq<real>) {
    && |advantages| == |masks| == |scores|
    && forall a | 0 <= a < |masks| ::
         && |advantages[a]| == |masks[a]| > 0
         && forall t | 0 <= t < |masks[a]| :: advantages[a][t] == scores[a] * masks[a][t]
  }

  predicate IsMask(mask: seq<real>) {
    forall t | 0 <= t < |mask| :: mask[t] == 0.0 || mask[t] == 1.0
  }

  /** A mask that marks at least one response token. */
  predicate HasResponse(mask: seq<real>) {
    exists t :: 0 <= t < |mask| && mask[t] == 1.0
  }

  /** The number found at the first masked position. */
  method PickScores(advantages: seq<seq<real>>, masks: seq<seq<real>>, ghost scores: seq<real>)
    returns (picked: seq<real>)
    requires SpreadOver(advantages, masks, scores)
    requires forall a | 0 <= a < |masks| :: IsMask(masks[a])
    ensures |picked| == |scores|
    ensures forall a | 0 <= a < |scores| :: picked[a] == if HasResponse(masks[a]) then scores[a] else 0.0
  {
    picked := [];
    for a := 0 to |masks|
      invariant |picked| == a
      invariant forall b | 0 <= b < a :: picked[b] == if HasResponse(masks[b]) then scores[b] else 0.0
    {
      var at := ArgMax(masks[a]);
      assert HasResponse(masks[a]) <==> masks[a][at] == 1.0;
      picked := picked + [advantages[a][at]];
    }
  }

  /** Every row's mask times the number that the row looks at. */
  ghost predicate SpreadByRow(out: seq<seq<real>>, picked: seq<real>, rowToLocal: seq<nat>, masks: seq<seq<real>>)
    requires |rowToLocal| == |masks| && forall i | 0 <= i < |rowToLocal| :: rowToLocal[i] < |picked|
  {
    && |out| == |masks|
    && forall i | 0 <= i < |masks| ::
         && |out[i]| == |masks[i]|
         && forall t | 0 <= t < |masks[i]| :: out[i][t] == picked[rowToLocal[i]] * masks[i][t]
  }

  /** `scores.unsqueeze(-1) * response_mask`. */
  method Broadcast(picked: seq<real>, rowToLocal: seq<nat>, masks: seq<seq<real>>) returns (out: seq<seq<real>>)
    requires |rowToLocal| == |masks| && forall i | 0 <= i < |rowToLocal| :: rowToLocal[i] < |picked|
    ensures SpreadByRow(out, picked, rowToLocal, masks)
  {
    out := [];
    for i := 0 to |masks|
      invariant |out| == i
      invariant forall j | 0 <= j < i ::
                  |out[j]| == |masks[j]|
                  && forall t | 0 <= t < |masks[j]| :: out[j][t] == picked[rowToLocal[j]] * masks[j][t]
    {
      var row: seq<real> := [];
      for t := 0 to |masks[i]|
        invariant |row| == t && forall u | 0 <= u < t :: row[u] == picked[rowToLocal[i]] * masks[i][u]
      {
        row := row + [picked[rowToLocal[i]] * masks[i][t]];
      }
      out := out + [row];
    }
  }

  /** The rows that are final, each once, in the order in which their sessions appear. */
  ghost predicate Selects(keys: seq<string>, finals: seq<nat>, rowToLocal: seq<nat>)
    requires AllWellFormed(keys)
  {
    && |rowToLocal| == |keys|
    && (forall a, b | 0 <= a < b < |finals| :: finals[a] != finals[b])
    && (forall a | 0 <= a < |finals| ::
          finals[a] < |keys| && IsFinal(keys, |keys|, SessionOf(keys[finals[a]]), finals[a]))
    && (forall i | 0 <= i < |keys| ::
          rowToLocal[i] < |finals| && IsFinal(keys, |keys|, SessionOf(keys[i]), finals[rowToLocal[i]]))
  }

  method SelectFinals(keys: seq<string>) returns (ok: bool, finals: seq<nat>, rowToLocal: seq<nat>)
    ensures ok <==> AllWellFormed(keys)
    ensures ok ==> Selects(keys, finals, rowToLocal)
  {
    var sessions, rowSessions;
    ok, sessions, rowSessions := CollectSessions(keys);
    finals, rowToLocal := [], [];
    if ok {
      finals, rowToLocal := LocalIndices(sessions, rowSessions);
      SelectsThem(keys, sessions, finals, rowToLocal);
    }
  }

  lemma {:induction false} SelectsThem(keys: seq<string>, sessions: Sessions, finals: seq<nat>, rowToLocal: seq<nat>)
    requires AllWellFormed(keys) && BestSoFar(keys, |keys|, sessions.best) && Listed(sessions.best, sessions.order)
    requires |finals| == |sessions.order|
    requires forall a | 0 <= a < |finals| :: finals[a] == sessions.best[sessions.order[a]].1
    requires |rowToLocal| == |keys|
    requires forall i | 0 <= i < |keys| ::
               rowToLocal[i] < |finals| && sessions.order[rowToLocal[i]] == SessionOf(keys[i])
    ensures Selects(keys, finals, rowToLocal)
  {
    hide SessionOf, IndexOf, WellFormed;
    forall a | 0 <= a < |finals|
      ensures finals[a] < |keys| && SessionOf(keys[finals[a]]) == sessions.order[a]
      ensures IsFinal(keys, |keys|, sessions.order[a], finals[a])
    {
      assert sessions.order[a] in sessions.order;
    }
  }

  method SelectMasks(masks: seq<seq<real>>, rows: seq<nat>) returns (chosen: seq<seq<real>>)
    requires forall a | 0 <= a < |rows| :: rows[a] < |masks|
    ensures |chosen| == |rows| && forall a | 0 <= a < |rows| :: chosen[a] == masks[rows[a]]
  {
    chosen := [];
    for a := 0 to |rows|
      invariant |chosen| == a && forall b | 0 <= b < a :: chosen[b] == masks[rows[b]]
    {
      chosen := chosen + [masks[rows[a]]];
    }
  }

  /** What a row receives when its session's final row has this score. */
  function Received(mask: seq<real>, score: real): real {
    if HasResponse(mask) then score else 0.0
  }

  /** Estimating on the selected rows, and reading each row's number at its first response token. */
  method FinalScores(finals: seq<nat>, masks: seq<seq<real>>, estimate: seq<nat> -> seq<real>)
    returns (picked: seq<real>)
    requires forall i | 0 <= i < |masks| :: IsMask(masks[i]) && masks[i] != []
    requires forall a | 0 <= a < |finals| :: finals[a] < |masks|
    requires |estimate(finals)| == |finals|
    ensures |picked| == |finals|
    ensures forall a | 0 <= a < |finals| :: picked[a] == Received(masks[finals[a]], estimate(finals)[a])
  {
    var chosen := SelectMasks(masks, finals);
    var scores := estimate(finals);
    var advantages := Broadcast(scores, seq(|finals|, a => a), chosen);
    picked := PickScores(advantages, chosen, scores);
  }

  /** The score of each session's final output; 0 where that has no response token. */
  function FinalScoresOf(finals: seq<nat>, masks: seq<seq<real>>, scores: seq<real>): (r: seq<real>)
    requires |scores| == |finals| && forall a | 0 <= a < |finals| :: finals[a] < |masks|
    ensures |r| == |finals|
  {
    seq(|finals|, a requires 0 <= a < |finals| => Received(masks[finals[a]], scores[a]))
  }

  /** Every row gets the score of the final output of its own session, on its response tokens.
      `estimate` gives one number for each selected row. */
  method SessionAdvantages(keys: seq<string>, masks: seq<seq<real>>, estimate: seq<nat> -> seq<real>)
    returns (ok: bool, out: seq<seq<real>>, finals: seq<nat>, rowToLocal: seq<nat>)
    requires |masks| == |keys| && forall i | 0 <= i < |masks| :: IsMask(masks[i]) && masks[i] != []
    requires forall rows :: |estimate(rows)| == |rows|
    ensures ok <==> AllWellFormed(keys)
    ensures ok ==> Selects(keys, finals, rowToLocal)
    ensures ok ==> SpreadByRow(out, FinalScoresOf(finals, masks, estimate(finals)), rowToLocal, masks)
  {
    hide AllWellFormed, IsFinal, SessionOf, Received, SpreadByRow;
    ok, finals, rowToLocal := SelectFinals(keys);
    out := [];
    if ok {
      var picked := FinalScores(finals, masks, estimate);
      assert picked == FinalScoresOf(finals, masks, estimate(finals));
      out := Broadcast(picked, rowToLocal, masks);
    }
  }

  // ------------------------------------------------------------------ validation

  /** A key without three fields. */
  predicate Plain(key: string) {
    |RSplit(key, 2)| != 3
  }

  /** Only the last of three fields is read as a number. */
  predicate Readable(key: string) {
    Plain(key) || ParseInt(RSplit(key, 2)[2]).Some?
  }

  predicate AllReadable(keys: seq<string>) {
    forall i | 0 <= i < |keys| :: Readable(keys[i])
  }

  /** The entry of a key: its session, or the key itself. */
  function GroupOf(key: string): string {
    if Plain(key) then key else RSplit(key, 2)[0] + "_" + RSplit(key, 2)[1]
  }

  function RankOf(key: string): int
    requires Readable(key)
  {
    if Plain(key) then 0 else ParseInt(RSplit(key, 2)[2]).value
  }

  /** Row `r` is chosen for an entry: no plain key of the entry comes after it, and among the rows from
      the last plain key on it is the first with the highest index, where a plain key counts as 0. */
  ghost predicate IsChosen(keys: seq<string>, n: nat, group: string, r: nat)
    requires n <= |keys| && AllReadable(keys)
  {
    && r < n && GroupOf(keys[r]) == group
    && (forall j | r < j < n && GroupOf(keys[j]) == group :: !Plain(keys[j]) && RankOf(keys[j]) <= RankOf(keys[r]))
    && (forall j | 0 <= j < r && GroupOf(keys[j]) == group ::
          RankOf(keys[j]) < RankOf(keys[r]) || PlainBetween(keys, group, j, r))
  }

  ghost predicate PlainBetween(keys: seq<string>, group: string, j: int, r: nat)
    requires r < |keys|
  {
    exists q :: 0 <= q <= r && j < q && GroupOf(keys[q]) == group && Plain(keys[q])
  }

  lemma {:induction false} OneChosen(keys: seq<string>, n: nat, group: string, r: nat, r': nat)
    requires n <= |keys| && AllReadable(keys) && IsChosen(keys, n, group, r) && IsChosen(keys, n, group, r')
    ensures r == r'
  {
    hide GroupOf, RankOf, Plain, Readable;
  }

  ghost predicate ChosenSoFar(keys: seq<string>, n: nat, best: map<string, (int, nat)>)
    requires n <= |keys| && AllReadable(keys)
  {
    && (forall i | 0 <= i < n :: GroupOf(keys[i]) in best)
    && forall s | s in best :: IsChosen(keys, n, s, best[s].1) && best[s].0 == RankOf(keys[best[s].1])
  }

  /** How one more row changes the dictionary. */
  function Noted(best: map<string, (int, nat)>, key: string, row: nat): map<string, (int, nat)>
    requires Readable(key)
  {
    var s := GroupOf(key);
    if Plain(key) || s !in best || RankOf(key) > best[s].0 then best[s := (RankOf(key), row)] else best
  }

  lemma {:induction false} NotedKeeps(keys: seq<string>, n: nat, best: map<string, (int, nat)>)
    requires n < |keys| && AllReadable(keys) && ChosenSoFar(keys, n, best)
    ensures ChosenSoFar(keys, n + 1, Noted(best, keys[n], n))
  {
    hide GroupOf, RankOf, Plain, Readable;
    var best' := Noted(best, keys[n], n);
    forall s | s in best'
      ensures IsChosen(keys, n + 1, s, best'[s].1) && best'[s].0 == RankOf(keys[best'[s].1])
    {
      if s in best {
        assert IsChosen(keys, n, s, best[s].1);
        if best'[s].1 == n {
          ReplacedIsChosen(keys, n, s, best[s].1);
        }
      }
    }
  }

  lemma {:induction false} ReplacedIsChosen(keys: seq<string>, n: nat, group: string, r: nat)
    requires n < |keys| && AllReadable(keys) && IsChosen(keys, n, group, r) && GroupOf(keys[n]) == group
    requires Plain(keys[n]) || RankOf(keys[n]) > RankOf(keys[r])
    ensures IsChosen(keys, n + 1, group, n)
  {
    hide GroupOf, RankOf, Plain, Readable;
    forall j | 0 <= j < n && GroupOf(keys[j]) == group
      ensures RankOf(keys[j]) < RankOf(keys[n]) || PlainBetween(keys, group, j, n)
    {
      if !Plain(keys[n]) && j < r && PlainBetween(keys, group, j, r) {
        var q :| 0 <= q <= r && j < q && GroupOf(keys[q]) == group && Plain(keys[q]);
        assert 0 <= q <= n;
      }
    }
  }

  lemma {:induction false} NothingNoted(keys: seq<string>)
    requires AllReadable(keys)
    ensures ChosenSoFar(keys, 0, map[])
  {
  }

  lemma {:induction false} NotedPrefix(keys: seq<string>, i: nat, best: map<string, (int, nat)>)
    requires i < |keys| && AllReadable(keys[..i]) && Readable(keys[i]) && ChosenSoFar(keys[..i], i, best)
    ensures AllReadable(keys[..i + 1]) && ChosenSoFar(keys[..i + 1], i + 1, Noted(best, keys[i], i))
  {
    hide GroupOf, RankOf, Plain, Readable;
    var was, now := keys[..i], keys[..i + 1];
    assert now[i] == keys[i] && forall j | 0 <= j < i :: now[j] == was[j];
    forall s | s in best ensures IsChosen(now, i, s, best[s].1) && best[s].0 == RankOf(now[best[s].1]) {
      LongerChosen(was, now, i, s, best[s].1);
    }
    forall j | 0 <= j < i ensures GroupOf(now[j]) in best {
      assert GroupOf(was[j]) in best;
    }
    NotedKeeps(now, i, best);
  }

  lemma {:induction false} LongerChosen(was: seq<string>, now: seq<string>, n: nat, group: string, r: nat)
    requires n == |was| <= |now| && now[..n] == was && AllReadable(was) && AllReadable(now)
    requires IsChosen(was, n, group, r)
    ensures IsChosen(now, n, group, r)
  {
    hide GroupOf, RankOf, Plain, Readable;
    assert forall j | 0 <= j < n :: now[j] == was[j];
    forall j | 0 <= j < r && GroupOf(now[j]) == group
      ensures RankOf(now[j]) < RankOf(now[r]) || PlainBetween(now, group, j, r)
    {
      if PlainBetween(was, group, j, r) {
        var q :| 0 <= q <= r && j < q && GroupOf(was[q]) == group && Plain(was[q]);
        assert now[q] == was[q];
      }
    }
  }

  /** The rows that are chosen for their entries, in the order of the batch. */
  ghost predicate ChosenRows(keys: seq<string>, rows: seq<nat>)
    requires AllReadable(keys)
  {
    && (forall a, b | 0 <= a < b < |rows| :: rows[a] < rows[b])
    && forall r: nat :: r in rows <==> r < |keys| && IsChosen(keys, |keys|, GroupOf(keys[r]), r)
  }

  /** The selection in `_validate`: it fails exactly on a key with three fields of which the last is not
      a number; a key without three fields stands for itself. */
  method ValidationRows(keys: seq<string>) returns (ok: bool, rows: seq<nat>)
    ensures ok <==> AllReadable(keys)
    ensures ok ==> ChosenRows(keys, rows)
  {
    hide ChosenSoFar, IsChosen, RSplit, ParseInt;
    var best: map<string, (int, nat)> := map[];
    NothingNoted(keys[..0]);
    rows := [];
    for pos := 0 to |keys|
      invariant forall j | 0 <= j < pos :: Readable(keys[j])
      invariant ChosenSoFar(keys[..pos], pos, best)
    {
      var parts := RSplit(keys[pos], 2);
      ghost var before := best;
      if |parts| == 3 {
        var session, index := parts[0] + "_" + parts[1], ParseInt(parts[2]);
        if index == None {
          return false, rows;
        }
        if session !in best || index.value > best[session].0 {
          best := best[session := (index.value, pos)];
        }
      } else {
        best := best[keys[pos] := (0, pos)];
      }
      NotedPrefix(keys, pos, before);
      assert best == Noted(before, keys[pos], pos);
    }
    assert keys[..|keys|] == keys;
    rows := SortedPositions(best, |keys|);
    BestAreChosen(keys, best);
    ok := true;
  }

  /** `sorted` over the positions. */
  method SortedPositions(best: map<string, (int, nat)>, n: nat) returns (rows: seq<nat>)
    ensures forall a, b | 0 <= a < b < |rows| :: rows[a] < rows[b]
    ensures forall r: nat :: r in rows <==> r < n && exists s :: s in best && best[s].1 == r
  {
    rows := [];
    for pos := 0 to n
      invariant forall a, b | 0 <= a < b < |rows| :: rows[a] < rows[b]
      invariant forall a | 0 <= a < |rows| :: rows[a] < pos
      invariant forall r: nat :: r in rows <==> r < pos && exists s :: s in best && best[s].1 == r
    {
      if exists s :: s in best && best[s].1 == pos {
        rows := rows + [pos];
      }
    }
  }

  lemma {:induction false} BestAreChosen(keys: seq<string>, best: map<string, (int, nat)>)
    requires AllReadable(keys) && ChosenSoFar(keys, |keys|, best)
    ensures forall r: nat | r < |keys| ::
              (exists s :: s in best && best[s].1 == r) <==> IsChosen(keys, |keys|, GroupOf(keys[r]), r)
  {
    hide GroupOf, RankOf, Plain, Readable;
    forall r: nat | r < |keys|
      ensures (exists s :: s in best && best[s].1 == r) <==> IsChosen(keys, |keys|, GroupOf(keys[r]), r)
    {
      var group := GroupOf(keys[r]);
      assert group in best && IsChosen(keys, |keys|, group, best[group].1);
      if exists s :: s in best && best[s].1 == r {
        var s :| s in best && best[s].1 == r;
        assert IsChosen(keys, |keys|, s, r);
      }
      if IsChosen(keys, |keys|, group, r) {
        OneChosen(keys, |keys|, group, r, best[group].1);
      }
    }
  }

  lemma {:induction false} WellFormedIsReadable(key: string)
    requires WellFormed(key)
    ensures Readable(key) && !Plain(key) && GroupOf(key) == SessionOf(key) && RankOf(key) == IndexOf(key)
  {
  }

  /** When every key has three fields, the chosen rows are the final ones. */
  lemma {:induction false} ChosenIsFinal(keys: seq<string>, r: nat)
    requires AllWellFormed(keys) && r < |keys|
    ensures AllReadable(keys)
    ensures IsChosen(keys, |keys|, GroupOf(keys[r]), r) <==> IsFinal(keys, |keys|, SessionOf(keys[r]), r)
  {
    hide GroupOf, RankOf, Plain, Readable, WellFormed, SessionOf, IndexOf;
    forall j | 0 <= j < |keys|
      ensures Readable(keys[j]) && !Plain(keys[j])
      ensures GroupOf(keys[j]) == SessionOf(keys[j]) && RankOf(keys[j]) == IndexOf(keys[j])
    {
      WellFormedIsReadable(keys[j]);
    }
  }

  /** Training and validation look at the same rows. */
  lemma {:induction false} SameRows(keys: seq<string>, finals: seq<nat>, rowToLocal: seq<nat>, rows: seq<nat>)
    requires AllWellFormed(keys) && Selects(keys, finals, rowToLocal) && ChosenRows(keys, rows)
    ensures forall r: nat :: r in finals <==> r in rows
    ensures |finals| == |rows|
  {
    hide SessionOf, IndexOf, WellFormed, GroupOf, IsChosen;
    forall r: nat ensures r in finals <==> r in rows {
      if r < |keys| {
        ChosenIsFinal(keys, r);
        if r in rows {
          OneFinal(keys, SessionOf(keys[r]), r, finals[rowToLocal[r]]);
        }
      }
    }
    SameLength(finals, rows);
  }

  function Elements(a: seq<nat>): set<nat> {
    set r | r in a
  }

  lemma {:induction false} DistinctLength(a: seq<nat>)
    requires forall i, j | 0 <= i < j < |a| :: a[i] != a[j]
    ensures |Elements(a)| == |a|
  {
    if a != [] {
      var n := |a| - 1;
      DistinctLength(a[..n]);
      assert a == a[..n] + [a[n]];
      assert Elements(a) == Elements(a[..n]) + {a[n]};
      assert a[n] !in Elements(a[..n]);
    }
  }

  lemma {:induction false} SameLength(a: seq<nat>, b: seq<nat>)
    requires forall i, j | 0 <= i < j < |a| :: a[i] != a[j]
    requires forall i, j | 0 <= i < j < |b| :: b[i] != b[j]
    requires forall r: nat :: r in a <==> r in b
    ensures |a| == |b|
  {
    DistinctLength(a);
    DistinctLength(b);
    assert Elements(a) == Elements(b);
  }

  /** In terms of what the keys were printed from, whatever the uids contain: the score of a row comes
      from the first output with the highest index among those of its own uid and session. */
  lemma {:induction false} FinalOfPrinted(
    uids: seq<string>, sessions: seq<nat>, indices: seq<nat>, keys: seq<string>, i: nat, r: nat)
    requires |uids| == |sessions| == |indices| == |keys| && i < |keys|
    requires forall j | 0 <= j < |keys| :: keys[j] == OutputKey(uids[j], sessions[j], indices[j])
    ensures AllWellFormed(keys)
    ensures IsFinal(keys, |keys|, SessionOf(keys[i]), r) ==>
              && r < |keys| && uids[r] == uids[i] && sessions[r] == sessions[i]
              && (forall j | 0 <= j < |keys| && uids[j] == uids[i] && sessions[j] == sessions[i] ::
                    indices[j] <= indices[r] && (j < r ==> indices[j] < indices[r]))
  {
    hide OutputKey, SessionKey, RSplit, ParseInt;
    forall j | 0 <= j < |keys|
      ensures WellFormed(keys[j]) && SessionOf(keys[j]) == SessionKey(uids[j], sessions[j])
      ensures IndexOf(keys[j]) == indices[j]
      ensures SessionOf(keys[j]) == SessionKey(uids[i], sessions[i]) <==>
              uids[j] == uids[i] && sessions[j] == sessions[i]
    {
      FieldsOfOutputKey(uids[j], sessions[j], indices[j]);
      SessionKeyInjective(uids[j], sessions[j], uids[i], sessions[i]);
    }
    assert SessionOf(keys[i]) == SessionKey(uids[i], sessions[i]);
  }
}
