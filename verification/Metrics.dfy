/** The entry "metrics" of the meta information, and how it is merged when batches are concatenated. */
module Metrics {
  import opened Options

  /** A metric is a number, or the list of the values it had in several parts. */
  datatype Value = Num(n: int) | List(values: seq<Value>)

  type Dict = map<string, Value>

  /** There may be no such entry, or `None`, a list of dictionaries, or one dictionary. */
  datatype Entry = Absent | Null | Listed(dicts: seq<Dict>) | Single(dict: Dict)

  /** The dictionaries of all parts, in order. */
  function Collected(parts: seq<Entry>): seq<Dict> {
    if parts == [] then []
    else
      var before := Collected(parts[..|parts| - 1]);
      match parts[|parts| - 1]
      case Listed(dicts) => before + dicts
      case Single(dict) => before + [dict]
      case _ => before
  }

  /** The values under a key, in order. */
  function ValuesOf(dicts: seq<Dict>, key: string): seq<Value> {
    if dicts == [] then []
    else
      var before, last := ValuesOf(dicts[..|dicts| - 1], key), dicts[|dicts| - 1];
      if key in last then before + [last[key]] else before
  }

  /** `list_of_dict_to_dict_of_list`: the keys are those of the first dictionary, and no other may have
      a key of its own. */
  predicate Alike(dicts: seq<Dict>) {
    forall i | 0 <= i < |dicts| :: dicts[i].Keys <= dicts[0].Keys
  }

  /** The merged entry: dropped when nothing was collected, and otherwise one dictionary of lists. */
  function Merged(parts: seq<Entry>): Option<Entry> {
    var all := Collected(parts);
    if all == [] then Some(Absent)
    else if !Alike(all) then None
    else Some(Single(map key | key in all[0] :: List(ValuesOf(all, key))))
  }

  function Copies(m: Entry, k: nat): (ms: seq<Entry>)
    ensures |ms| == k && forall i | 0 <= i < k :: ms[i] == m
  {
    seq(k, i => m)
  }

  /** What becomes of one entry that `k` parts have in common. */
  function Remerged(m: Entry, k: nat): Option<Entry> {
    Merged(Copies(m, k))
  }

  /** The entries that merging leaves as they are. */
  predicate Plain(m: Entry) {
    m == Absent || m == Single(map[])
  }

  /** The entries that can be merged with themselves. */
  predicate SelfAlike(m: Entry) {
    m.Listed? ==> Alike(m.dicts)
  }

  function DictsOf(m: Entry): seq<Dict> {
    match m
    case Listed(dicts) => dicts
    case Single(dict) => [dict]
    case _ => []
  }

  lemma {:induction false} CollectedCopies(m: Entry, k: nat)
    ensures k == 0 || DictsOf(m) == [] ==> Collected(Copies(m, k)) == []
    ensures k > 0 ==> DictsOf(m) <= Collected(Copies(m, k))
    ensures forall d | d in Collected(Copies(m, k)) :: d in DictsOf(m)
  {
    var copies := Copies(m, k);
    if k > 0 {
      assert copies[..k - 1] == Copies(m, k - 1);
      CollectedCopies(m, k - 1);
      assert Collected(copies) == Collected(Copies(m, k - 1)) + DictsOf(m);
    }
  }

  /** No value is the list that begins with it. */
  lemma {:induction false} NotItsOwnList(v: Value, values: seq<Value>)
    requires values != [] && values[0] == v
    ensures v != List(values)
  {
    assert values[0] < List(values);
  }

  lemma {:induction false} FirstValue(dicts: seq<Dict>, key: string)
    requires dicts != [] && key in dicts[0]
    ensures ValuesOf(dicts, key) != [] && ValuesOf(dicts, key)[0] == dicts[0][key]
  {
    if |dicts| > 1 {
      FirstValue(dicts[..|dicts| - 1], key);
    } else {
      assert ValuesOf(dicts[..0], key) == [];
    }
  }

  lemma {:induction false} RemergedSingle(dict: Dict, k: nat)
    requires k > 0
    ensures Remerged(Single(dict), k).Some?
    ensures Remerged(Single(dict), k) == Some(Single(dict)) <==> dict == map[]
  {
    var all := Collected(Copies(Single(dict), k));
    CollectedCopies(Single(dict), k);
    forall i | 0 <= i < |all| ensures all[i] == dict {
      assert all[i] in all;
    }
    var merged := map key | key in all[0] :: List(ValuesOf(all, key));
    assert merged.Keys == dict.Keys;
    if dict != map[] {
      var key :| key in dict;
      FirstValue(all, key);
      NotItsOwnList(dict[key], ValuesOf(all, key));
      assert merged[key] != dict[key];
    }
  }

  /** Merging copies of an entry succeeds exactly when its dictionaries have their keys in common, and
      leaves it as it was exactly when it is absent or an empty dictionary. */
  lemma {:induction false} RemergedExactly(m: Entry, k: nat)
    requires k > 0
    ensures Remerged(m, k).Some? <==> SelfAlike(m)
    ensures Remerged(m, k) == Some(m) <==> Plain(m)
  {
    CollectedCopies(m, k);
    match m
    case Single(dict) => RemergedSingle(dict, k);
    case Listed(dicts) => RemergedListed(dicts, k);
    case _ =>
  }

  lemma {:induction false} RemergedListed(dicts: seq<Dict>, k: nat)
    requires k > 0
    ensures Remerged(Listed(dicts), k).Some? <==> Alike(dicts)
    ensures Remerged(Listed(dicts), k) != Some(Listed(dicts))
  {
    CollectedCopies(Listed(dicts), k);
    var all := Collected(Copies(Listed(dicts), k));
    if dicts != [] {
      assert all[0] == dicts[0];
      forall i | Alike(dicts) && 0 <= i < |all| ensures all[i].Keys <= all[0].Keys {
        assert all[i] in all;
      }
      if Alike(all) {
        forall i | 0 <= i < |dicts| ensures dicts[i].Keys <= dicts[0].Keys {
          assert dicts[i] == all[i];
        }
      }
    }
  }

  lemma {:induction false} ListOfOne(x: int)
    ensures Remerged(Single(map["loss" := Num(x)]), 1) == Some(Single(map["loss" := List([Num(x)])]))
  {
    var loss: Dict := map["loss" := Num(x)];
    var copies := Copies(Single(loss), 1);
    assert copies[..0] == [];
    assert Collected(copies) == [] + [loss] == [loss];
    assert [loss][..0] == [];
    assert ValuesOf([loss], "loss") == [] + [Num(x)] == [Num(x)];
    assert (map key | key in loss :: List(ValuesOf([loss], key))) == map["loss" := List([Num(x)])];
  }

  function Singles(dicts: seq<Dict>): (parts: seq<Entry>)
    ensures |parts| == |dicts| && forall i | 0 <= i < |dicts| :: parts[i] == Single(dicts[i])
  {
    seq(|dicts|, i requires 0 <= i < |dicts| => Single(dicts[i]))
  }

  lemma {:induction false} CollectedSingles(dicts: seq<Dict>)
    ensures Collected(Singles(dicts)) == dicts
  {
    if dicts != [] {
      var n := |dicts| - 1;
      assert Singles(dicts)[..n] == Singles(dicts[..n]);
      CollectedSingles(dicts[..n]);
    }
  }

  lemma {:induction false} ValuesInOrder(dicts: seq<Dict>, key: string)
    requires forall i | 0 <= i < |dicts| :: key in dicts[i]
    ensures |ValuesOf(dicts, key)| == |dicts|
    ensures forall i | 0 <= i < |dicts| :: ValuesOf(dicts, key)[i] == dicts[i][key]
  {
    if dicts != [] {
      ValuesInOrder(dicts[..|dicts| - 1], key);
    }
  }

  /** One dictionary from each of several workers: merging them fails exactly when one has a key that the
      first has not, and with the same keys in all each metric is the list of the workers' values, in
      order. */
  lemma {:induction false} MergedOfWorkers(dicts: seq<Dict>)
    requires dicts != []
    ensures Merged(Singles(dicts)).Some? <==> Alike(dicts)
    ensures Merged(Singles(dicts)).Some? ==>
              && Merged(Singles(dicts)).value.Single?
              && Merged(Singles(dicts)).value.dict.Keys == dicts[0].Keys
    ensures (forall i | 0 <= i < |dicts| :: dicts[i].Keys == dicts[0].Keys) ==>
              && Merged(Singles(dicts)).Some?
              && forall key | key in dicts[0] ::
                  var v := Merged(Singles(dicts)).value.dict[key];
                  v.List? && |v.values| == |dicts| && forall i | 0 <= i < |dicts| :: v.values[i] == dicts[i][key]
  {
    CollectedSingles(dicts);
    if forall i | 0 <= i < |dicts| :: dicts[i].Keys == dicts[0].Keys {
      forall key | key in dicts[0]
        ensures |ValuesOf(dicts, key)| == |dicts|
        ensures forall i | 0 <= i < |dicts| :: ValuesOf(dicts, key)[i] == dicts[i][key]
      {
        ValuesInOrder(dicts, key);
      }
    }
  }

  /** What is collected, part by part: nothing of a part without metrics or with `None`, the dictionaries of a
      list in their order, and a single dictionary as it is. */
  lemma {:induction false} CollectedMeans(parts: seq<Entry>, dicts: seq<Dict>, dict: Dict)
    ensures Collected([]) == []
    ensures Collected(parts + [Absent]) == Collected(parts) == Collected(parts + [Null])
    ensures Collected(parts + [Listed(dicts)]) == Collected(parts) + dicts
    ensures Collected(parts + [Single(dict)]) == Collected(parts) + [dict]
  {
    forall last: Entry ensures (parts + [last])[..|parts|] == parts {
    }
  }
}
