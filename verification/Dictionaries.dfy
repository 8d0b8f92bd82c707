/** Dictionaries as lists of entries in the order of insertion; `key` gives the key of an entry. */
module Dictionaries {

  /** `d[key(x)] = x`: a key that is there keeps its place and loses its entry. */
  function Put<T>(key: T -> string, d: seq<T>, e: T): seq<T> {
    if d == [] then [e]
    else if key(d[0]) == key(e) then [e] + d[1..]
    else [d[0]] + Put(key, d[1..], e)
  }

  /** The dictionary that a list of entries is put into. */
  function AsDict<T>(key: T -> string, xs: seq<T>): seq<T> {
    if xs == [] then [] else Put(key, AsDict(key, xs[..|xs| - 1]), xs[|xs| - 1])
  }

  predicate DistinctKeys<T>(key: T -> string, xs: seq<T>) {
    forall i, j | 0 <= i < j < |xs| :: key(xs[i]) != key(xs[j])
  }

  lemma {:induction false} ConsMember<T>(x: T, first: T, rest: seq<T>)
    ensures x in [first] + rest <==> x == first || x in rest
  {
  }

  lemma {:induction false} ConsDistinct<T>(key: T -> string, first: T, rest: seq<T>)
    ensures DistinctKeys(key, [first] + rest) <==>
            DistinctKeys(key, rest) && forall x | x in rest :: key(x) != key(first)
  {
    var all := [first] + rest;
    assert all[0] == first && forall i | 0 <= i < |rest| :: all[i + 1] == rest[i];
    if DistinctKeys(key, all) {
      forall i, j | 0 <= i < j < |rest| ensures key(rest[i]) != key(rest[j]) {
        assert all[i + 1] == rest[i] && all[j + 1] == rest[j];
      }
      forall x | x in rest ensures key(x) != key(first) {
        var i :| 0 <= i < |rest| && rest[i] == x;
        assert all[i + 1] == x;
      }
    }
    if DistinctKeys(key, rest) && forall x | x in rest :: key(x) != key(first) {
      forall i, j | 0 <= i < j < |all| ensures key(all[i]) != key(all[j]) {
        assert all[j] == rest[j - 1] && rest[j - 1] in rest;
        assert i > 0 ==> all[i] == rest[i - 1];
      }
    }
  }

  ghost predicate HasKey<T>(key: T -> string, d: seq<T>, e: T) {
    exists x :: x in d && key(x) == key(e)
  }

  /** What is in a dictionary after an insertion. */
  lemma {:induction false} PutMembers<T>(key: T -> string, d: seq<T>, e: T, x: T)
    requires DistinctKeys(key, d)
    ensures x in Put(key, d, e) <==> x == e || (x in d && key(x) != key(e))
  {
    hide DistinctKeys;
    if d != [] {
      var rest := d[1..];
      assert d == [d[0]] + rest;
      ConsDistinct(key, d[0], rest);
      ConsMember(x, d[0], rest);
      ConsMember(x, e, rest);
      if key(d[0]) != key(e) {
        PutMembers(key, rest, e, x);
        ConsMember(x, d[0], Put(key, rest, e));
      }
    }
  }

  lemma {:induction false} PutDistinct<T>(key: T -> string, d: seq<T>, e: T)
    requires DistinctKeys(key, d)
    ensures DistinctKeys(key, Put(key, d, e))
  {
    hide DistinctKeys;
    if d == [] {
      OneEntry(key, e);
    } else {
      var rest := d[1..];
      assert d == [d[0]] + rest;
      ConsDistinct(key, d[0], rest);
      ConsDistinct(key, e, rest);
      PutDistinct(key, rest, e);
      forall x | x in Put(key, rest, e) ensures x == e || key(x) != key(d[0]) {
        PutMembers(key, rest, e, x);
      }
      ConsDistinct(key, d[0], Put(key, rest, e));
    }
  }

  lemma {:induction false} PutLength<T>(key: T -> string, d: seq<T>, e: T)
    ensures if HasKey(key, d, e) then |Put(key, d, e)| == |d| else Put(key, d, e) == d + [e]
  {
    hide HasKey;
    if d == [] {
      NoKey(key, e);
    } else {
      var rest := d[1..];
      assert d == [d[0]] + rest;
      PutLength(key, rest, e);
      ConsKey(key, d[0], rest, e);
      assert [d[0]] + (rest + [e]) == d + [e];
    }
  }

  lemma {:induction false} NoKey<T>(key: T -> string, e: T)
    ensures !HasKey<T>(key, [], e)
  {
  }

  lemma {:induction false} ConsKey<T>(key: T -> string, first: T, rest: seq<T>, e: T)
    ensures HasKey(key, [first] + rest, e) <==> key(first) == key(e) || HasKey(key, rest, e)
  {
    if key(first) == key(e) {
      ConsMember(first, first, rest);
    }
    if HasKey(key, rest, e) {
      var x :| x in rest && key(x) == key(e);
      ConsMember(x, first, rest);
    }
    if HasKey(key, [first] + rest, e) {
      var x :| x in [first] + rest && key(x) == key(e);
      ConsMember(x, first, rest);
    }
  }

  lemma {:induction false} PutMeans<T>(key: T -> string, d: seq<T>, e: T)
    requires DistinctKeys(key, d)
    ensures DistinctKeys(key, Put(key, d, e))
    ensures forall x :: x in Put(key, d, e) <==> x == e || (x in d && key(x) != key(e))
    ensures if HasKey(key, d, e) then |Put(key, d, e)| == |d| else Put(key, d, e) == d + [e]
  {
    hide DistinctKeys, Put, HasKey;
    forall x ensures x in Put(key, d, e) <==> x == e || (x in d && key(x) != key(e)) {
      PutMembers(key, d, e, x);
    }
    PutDistinct(key, d, e);
    PutLength(key, d, e);
  }

  /** The keys stay where they are, and a new one comes last. */
  lemma {:induction false} PutKeepsPlaces<T>(key: T -> string, d: seq<T>, e: T)
    requires DistinctKeys(key, d)
    ensures |d| <= |Put(key, d, e)|
    ensures forall i | 0 <= i < |d| ::
              key(Put(key, d, e)[i]) == key(d[i]) && Put(key, d, e)[i] == if key(d[i]) == key(e) then e else d[i]
    ensures !HasKey(key, d, e) ==> Put(key, d, e) == d + [e]
  {
    PutLength(key, d, e);
    hide HasKey;
    if d != [] {
      var rest := d[1..];
      assert d == [d[0]] + rest;
      ConsDistinct(key, d[0], rest);
      if key(d[0]) == key(e) {
        forall i | 0 < i < |d| ensures key(d[i]) != key(e) {
          assert d[i] == rest[i - 1] && rest[i - 1] in rest;
        }
      } else {
        PutKeepsPlaces(key, rest, e);
      }
    }
  }

  lemma {:induction false} OneEntry<T>(key: T -> string, e: T)
    ensures DistinctKeys(key, [e])
  {
  }

  /** `x` is in the list, and no entry after it has its key. */
  ghost predicate IsLast<T>(key: T -> string, xs: seq<T>, x: T) {
    exists i :: 0 <= i < |xs| && xs[i] == x && forall j | i < j < |xs| :: key(xs[j]) != key(x)
  }

  lemma {:induction false} LastSnoc<T>(key: T -> string, xs: seq<T>, e: T, x: T)
    ensures IsLast(key, xs + [e], x) <==> x == e || (IsLast(key, xs, x) && key(x) != key(e))
  {
    var all, n := xs + [e], |xs|;
    assert all[n] == e;
    if IsLast(key, xs, x) && key(x) != key(e) {
      var i :| 0 <= i < n && xs[i] == x && forall j | i < j < n :: key(xs[j]) != key(x);
      assert all[i] == x;
    }
    if IsLast(key, all, x) && x != e {
      var i :| 0 <= i < |all| && all[i] == x && forall j | i < j < |all| :: key(all[j]) != key(x);
      assert xs[i] == x;
      assert forall j | i < j < n :: xs[j] == all[j];
    }
  }

  /** The dictionary holds exactly the last entry of each key. */
  lemma {:induction false} AsDictMeans<T>(key: T -> string, xs: seq<T>)
    ensures DistinctKeys(key, AsDict(key, xs))
    ensures forall x :: x in AsDict(key, xs) <==> IsLast(key, xs, x)
  {
    hide DistinctKeys, Put, IsLast;
    if xs == [] {
      NothingLast<T>(key);
    } else {
      var n := |xs| - 1;
      AsDictMeans(key, xs[..n]);
      PutMeans(key, AsDict(key, xs[..n]), xs[n]);
      assert xs == xs[..n] + [xs[n]];
      forall x ensures x in AsDict(key, xs) <==> IsLast(key, xs, x) {
        LastSnoc(key, xs[..n], xs[n], x);
      }
    }
  }

  lemma {:induction false} NothingLast<T>(key: T -> string)
    ensures DistinctKeys<T>(key, []) && forall x: T :: !IsLast(key, [], x)
  {
  }

  lemma {:induction false} DistinctSnoc<T>(key: T -> string, xs: seq<T>, e: T)
    ensures DistinctKeys(key, xs + [e]) <==> DistinctKeys(key, xs) && forall x | x in xs :: key(x) != key(e)
  {
    var all := xs + [e];
    assert forall i | 0 <= i < |xs| :: all[i] == xs[i];
    assert all[|xs|] == e;
  }

  /** Nothing is lost exactly when no two entries share a key. */
  lemma {:induction false} AsDictKeeps<T>(key: T -> string, xs: seq<T>)
    ensures |AsDict(key, xs)| <= |xs|
    ensures |AsDict(key, xs)| == |xs| <==> DistinctKeys(key, xs)
    ensures DistinctKeys(key, xs) ==> AsDict(key, xs) == xs
  {
    hide DistinctKeys, Put;
    if xs == [] {
      NothingLast<T>(key);
    } else {
      var n := |xs| - 1;
      AsDictKeeps(key, xs[..n]);
      AsDictMeans(key, xs[..n]);
      PutMeans(key, AsDict(key, xs[..n]), xs[n]);
      DistinctSnoc(key, xs[..n], xs[n]);
      assert xs == xs[..n] + [xs[n]];
    }
  }

  lemma {:induction false} DictNext<T>(key: T -> string, xs: seq<T>, e: T)
    ensures AsDict(key, xs + [e]) == Put(key, AsDict(key, xs), e) && AsDict(key, xs + [e]) != []
    ensures AsDict(key, xs) == [] <==> xs == []
  {
    assert (xs + [e])[..|xs|] == xs;
    if xs != [] {
      assert Put(key, AsDict(key, xs[..|xs| - 1]), xs[|xs| - 1]) != [];
    }
  }
}
