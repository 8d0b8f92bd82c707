/** Sizes of sets and products, for the progress of the bucket protocols. */
module Counting {

  ghost predicate FullSet(b: nat, s: set<nat>) {
    forall j: nat | j < b :: j in s
  }

  function Range(b: nat): (r: set<nat>)
    ensures |r| == b && forall j: nat :: j in r <==> j < b
  {
    if b == 0 then {} else Range(b - 1) + {b - 1}
  }

  lemma {:induction false} SubsetCard(b: nat, copied: set<nat>)
    requires forall j | j in copied :: j < b
    ensures |copied| <= b
    ensures FullSet(b, copied) ==> |copied| == b
  {
    if FullSet(b, copied) {
      assert copied == Range(b);
    } else {
      assert copied <= Range(b);
      SubsetSize(copied, Range(b));
    }
  }

  lemma {:induction false} SubsetSize<T>(a: set<T>, b: set<T>)
    requires a <= b
    ensures |a| <= |b|
    decreases |a|
  {
    if a != {} {
      var x :| x in a;
      SubsetSize(a - {x}, b - {x});
    }
  }

  lemma {:induction false} LessRound(n: nat, got: nat, w: nat)
    requires got < n
    ensures (n - (got + 1)) * w == (n - got) * w - w
  {
  }

  lemma {:induction false} NonNegativeProduct(x: int, w: int)
    requires x >= 0 && w >= 0
    ensures x * w >= 0
  {
  }
}
