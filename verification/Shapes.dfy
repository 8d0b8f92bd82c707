/** Shapes of tensors, and how many elements they have. */
module Shapes {
  import opened Arith
  import opened Counting

  /** `shape.numel()`. */
  function Numel(shape: seq<nat>): nat {
    if shape == [] then 1 else shape[0] * Numel(shape[1..])
  }

  lemma {:induction false} NumelOne(n: nat)
    ensures Numel([n]) == n
  {
    assert [n][1..] == [];
  }

  /** A shape in two parts: the products of both multiply. */
  lemma {:induction false} NumelConcat(a: seq<nat>, b: seq<nat>)
    ensures Numel(a + b) == Numel(a) * Numel(b)
  {
    if a == [] {
      assert a + b == b;
    } else {
      NumelConcat(a[1..], b);
      assert (a + b)[0] == a[0] && (a + b)[1..] == a[1..] + b;
      TimesAssociates(a[0], Numel(a[1..]), Numel(b));
    }
  }

  /** An index into a tensor of this shape. */
  predicate IsIndex(shape: seq<nat>, ix: seq<nat>) {
    |ix| == |shape| && forall k | 0 <= k < |shape| :: ix[k] < shape[k]
  }

  /** The row-major position of an index. */
  function Position(shape: seq<nat>, ix: seq<nat>): nat
    requires |ix| == |shape|
  {
    if shape == [] then 0 else ix[0] * Numel(shape[1..]) + Position(shape[1..], ix[1..])
  }

  /** The number of elements counts the indices: positions of indices are below it, ... */
  lemma {:induction false} PositionBelow(shape: seq<nat>, ix: seq<nat>)
    requires IsIndex(shape, ix)
    ensures Position(shape, ix) < Numel(shape)
  {
    if shape != [] {
      PositionBelow(shape[1..], ix[1..]);
      var n := Numel(shape[1..]);
      TimesGrows(ix[0] + 1, shape[0], n);
      assert (ix[0] + 1) * n == ix[0] * n + n;
    }
  }

  /** ... two indices never have the same position, ... */
  lemma {:induction false} PositionsDiffer(shape: seq<nat>, ix: seq<nat>, ix': seq<nat>)
    requires IsIndex(shape, ix) && IsIndex(shape, ix') && Position(shape, ix) == Position(shape, ix')
    ensures ix == ix'
  {
    if shape != [] {
      var n, rest, rest' := Numel(shape[1..]), Position(shape[1..], ix[1..]), Position(shape[1..], ix'[1..]);
      PositionBelow(shape[1..], ix[1..]);
      PositionBelow(shape[1..], ix'[1..]);
      QuotientIs(ix[0] * n + rest, n, ix[0]);
      QuotientIs(ix'[0] * n + rest', n, ix'[0]);
      PositionsDiffer(shape[1..], ix[1..], ix'[1..]);
      assert ix == [ix[0]] + ix[1..] && ix' == [ix'[0]] + ix'[1..];
    }
  }

  lemma {:induction false} NotNothing(a: nat, b: nat)
    requires a * b > 0
    ensures b > 0
  {
  }

  lemma {:induction false} QuotientBelow(p: nat, a: nat, n: nat)
    requires p < a * n && n > 0
    ensures p / n < a && p == (p / n) * n + p % n
  {
    if p / n >= a {
      TimesGrows(a, p / n, n);
    }
  }

  /** ... and every position below it is that of an index. */
  lemma {:induction false} PositionTaken(shape: seq<nat>, p: nat) returns (ix: seq<nat>)
    requires p < Numel(shape)
    ensures IsIndex(shape, ix) && Position(shape, ix) == p
  {
    hide Position, IsIndex;
    if shape == [] {
      ix := [];
      NoIndex();
    } else {
      var n := Numel(shape[1..]);
      NotNothing(shape[0], n);
      QuotientBelow(p, shape[0], n);
      var rest := PositionTaken(shape[1..], p % n);
      ix := [p / n] + rest;
      FirstIndex(shape, p / n, rest);
    }
  }

  lemma {:induction false} NoIndex()
    ensures IsIndex([], []) && Position([], []) == 0
  {
  }

  lemma {:induction false} FirstIndex(shape: seq<nat>, first: nat, rest: seq<nat>)
    requires shape != [] && first < shape[0] && IsIndex(shape[1..], rest)
    ensures IsIndex(shape, [first] + rest)
    ensures Position(shape, [first] + rest) == first * Numel(shape[1..]) + Position(shape[1..], rest)
  {
    var ix := [first] + rest;
    assert ix[1..] == rest && ix[0] == first;
    forall k | 0 <= k < |shape| ensures ix[k] < shape[k] {
      assert k > 0 ==> ix[k] == rest[k - 1] && shape[k] == shape[1..][k - 1];
    }
  }

  // ------------------------------------------------------------------ counting the indices

  function PositionsOf(shape: seq<nat>, some: set<seq<nat>>): set<nat> {
    set ix | ix in some && |ix| == |shape| :: Position(shape, ix)
  }

  lemma {:induction false} ImageSize(shape: seq<nat>, some: set<seq<nat>>)
    requires forall ix | ix in some :: IsIndex(shape, ix)
    ensures |PositionsOf(shape, some)| == |some|
    decreases |some|
  {
    hide Position;
    if some == {} {
      assert PositionsOf(shape, some) == {};
    } else {
      var x :| x in some;
      var rest := some - {x};
      ImageSize(shape, rest);
      var before := PositionsOf(shape, rest);
      if Position(shape, x) in before {
        var y :| y in rest && |y| == |shape| && Position(shape, y) == Position(shape, x);
        PositionsDiffer(shape, x, y);
      }
      assert PositionsOf(shape, some) == before + {Position(shape, x)};
    }
  }

  /** There are as many indices as elements. */
  lemma {:induction false} NumelCounts(shape: seq<nat>, indices: set<seq<nat>>)
    requires forall ix :: ix in indices <==> IsIndex(shape, ix)
    ensures |indices| == Numel(shape)
  {
    hide Position, IsIndex;
    ImageSize(shape, indices);
    var image := PositionsOf(shape, indices);
    forall p: nat ensures p in image <==> p in Range(Numel(shape)) {
      if p in image {
        var ix :| ix in indices && |ix| == |shape| && Position(shape, ix) == p;
        PositionBelow(shape, ix);
      }
      if p in Range(Numel(shape)) {
        var ix := PositionTaken(shape, p);
        IndexLength(shape, ix);
        assert ix in indices;
      }
    }
    assert image == Range(Numel(shape));
  }

  lemma {:induction false} IndexLength(shape: seq<nat>, ix: seq<nat>)
    requires IsIndex(shape, ix)
    ensures |ix| == |shape|
  {
  }
}
