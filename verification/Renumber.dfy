/** Numbering the layers of all pipeline stages as one model again. */
module Renumber {
  import opened Planner

  /** The local layer numbers of the keys of a stage are exactly 0 .. n - 1, in any order and as often
      as there are keys. */
  ghost predicate HasLayers(locals: seq<nat>, n: nat) {
    && (forall i | 0 <= i < |locals| :: locals[i] < n)
    && forall k: nat | k < n :: k in locals
  }

  /** A stage may be without layers. */
  ghost predicate LayersOf(stages: seq<seq<nat>>, sizes: seq<nat>) {
    |stages| == |sizes| && forall i | 0 <= i < |stages| :: HasLayers(stages[i], sizes[i])
  }

  /** The layers of stage `i` are shifted past all earlier stages. */
  ghost predicate Shifted(stages: seq<seq<nat>>, sizes: seq<nat>, start: nat, globals: seq<seq<nat>>)
    requires |stages| == |sizes|
  {
    && |globals| == |stages|
    && forall i | 0 <= i < |stages| ::
         && |globals[i]| == |stages[i]|
         && forall k | 0 <= k < |stages[i]| :: globals[i][k] == start + Sum(sizes[..i]) + stages[i][k]
  }

  /** One stage: the keys are shifted, and the highest local number is found. */
  method ShiftStage(locals: seq<nat>, cum: nat) returns (globals: seq<nat>, handled: nat)
    ensures |globals| == |locals| && forall k | 0 <= k < |locals| :: globals[k] == cum + locals[k]
    ensures forall n: nat | HasLayers(locals, n) :: handled == if n == 0 then 0 else n - 1
  {
    globals, handled := [], 0;
    for k := 0 to |locals|
      invariant |globals| == k && forall j | 0 <= j < k :: globals[j] == cum + locals[j]
      invariant forall j | 0 <= j < k :: locals[j] <= handled
      invariant handled == 0 || handled in locals
    {
      handled := if locals[k] >= handled then locals[k] else handled;
      globals := globals + [locals[k] + cum];
    }
    forall n: nat | HasLayers(locals, n) ensures handled == if n == 0 then 0 else n - 1 {
      if n > 0 {
        assert n - 1 in locals;
      }
    }
  }

  /** The numbers by which the offset grows: a stage without layers counts as one. */
  function Counted(sizes: seq<nat>): (r: seq<nat>)
    ensures |r| == |sizes|
    ensures forall i | 0 <= i < |sizes| :: r[i] == if sizes[i] == 0 then 1 else sizes[i]
  {
    seq(|sizes|, i requires 0 <= i < |sizes| => if sizes[i] == 0 then 1 else sizes[i])
  }

  /** The layer numbers of `_merge_state_dicts`; `start` is where the stages of this rank begin. */
  method MergeLayers(stages: seq<seq<nat>>, ghost sizes: seq<nat>, start: nat) returns (globals: seq<seq<nat>>)
    requires LayersOf(stages, sizes)
    ensures Shifted(stages, Counted(sizes), start, globals)
    ensures Shifted(stages, sizes, start, globals) <==> EmptyAtEnd(sizes)
  {
    globals := [];
    var cum := start;
    ghost var counted := Counted(sizes);
    for i := 0 to |stages|
      invariant |globals| == i && cum == start + Sum(counted[..i])
      invariant forall j | 0 <= j < i ::
                  && |globals[j]| == |stages[j]|
                  && forall k | 0 <= k < |stages[j]| :: globals[j][k] == start + Sum(counted[..j]) + stages[j][k]
    {
      var shifted, handled := ShiftStage(stages[i], cum);
      assert HasLayers(stages[i], sizes[i]);
      globals := globals + [shifted];
      cum := cum + handled + 1;
      assert counted[..i + 1][..i] == counted[..i];
    }
    ShiftedExactly(stages, sizes, start, globals);
  }

  /** No stage without layers comes before one that has some. */
  predicate EmptyAtEnd(sizes: seq<nat>) {
    forall i, j | 0 <= i < j < |sizes| :: sizes[i] == 0 ==> sizes[j] == 0
  }

  lemma {:induction false} CountedSum(sizes: seq<nat>, n: nat)
    requires n <= |sizes|
    ensures Sum(Counted(sizes)[..n]) >= Sum(sizes[..n])
    ensures Sum(Counted(sizes)[..n]) == Sum(sizes[..n]) <==> forall i | 0 <= i < n :: sizes[i] > 0
  {
    if n > 0 {
      CountedSum(sizes, n - 1);
      assert Counted(sizes)[..n][..n - 1] == Counted(sizes)[..n - 1] && sizes[..n][..n - 1] == sizes[..n - 1];
    }
  }

  /** The layers are shifted past exactly the earlier ones unless a stage without layers comes before one
      that has some: that stage shifts the later ones by one. */
  lemma {:induction false} ShiftedExactly(
    stages: seq<seq<nat>>, sizes: seq<nat>, start: nat, globals: seq<seq<nat>>)
    requires LayersOf(stages, sizes) && Shifted(stages, Counted(sizes), start, globals)
    ensures Shifted(stages, sizes, start, globals) <==> EmptyAtEnd(sizes)
  {
    hide Sum;
    if EmptyAtEnd(sizes) {
      forall i, k | 0 <= i < |stages| && 0 <= k < |stages[i]|
        ensures globals[i][k] == start + Sum(sizes[..i]) + stages[i][k]
      {
        CountedSum(sizes, i);
        assert HasLayers(stages[i], sizes[i]);
      }
    } else {
      var i, j :| 0 <= i < j < |sizes| && sizes[i] == 0 && sizes[j] > 0;
      CountedSum(sizes, j);
      assert HasLayers(stages[j], sizes[j]);
      assert 0 in stages[j];
      assert globals[j][0] == start + Sum(Counted(sizes)[..j]) + stages[j][0];
    }
  }

  lemma {:induction false} SumPrefixGrows(sizes: seq<nat>, i: nat, j: nat)
    requires i < j <= |sizes|
    ensures Sum(sizes[..i]) + sizes[i] <= Sum(sizes[..j])
  {
    assert sizes[..j][..j - 1] == sizes[..j - 1];
    if i < j - 1 {
      SumPrefixGrows(sizes, i, j - 1);
    }
  }

  /** No two layers get the same number. */
  lemma {:induction false} NumbersDiffer(
    stages: seq<seq<nat>>, sizes: seq<nat>, start: nat, globals: seq<seq<nat>>, i: nat, k: nat, i': nat, k': nat)
    requires LayersOf(stages, sizes) && Shifted(stages, sizes, start, globals)
    requires i < |stages| && k < |stages[i]| && i' < |stages| && k' < |stages[i']|
    ensures globals[i][k] == globals[i'][k'] <==> i == i' && stages[i][k] == stages[i'][k']
    ensures start <= globals[i][k] < start + Sum(sizes)
  {
    assert HasLayers(stages[i], sizes[i]) && HasLayers(stages[i'], sizes[i']);
    if i < i' {
      SumPrefixGrows(sizes, i, i');
    } else if i' < i {
      SumPrefixGrows(sizes, i', i);
    }
    SumPrefixGrows(sizes, i, |sizes|);
    assert sizes[..|sizes|] == sizes;
  }

  /** Every number is given to some layer. */
  lemma {:induction false} NumbersCover(
    stages: seq<seq<nat>>, sizes: seq<nat>, start: nat, globals: seq<seq<nat>>, n: nat, g: nat)
    returns (i: nat, k: nat)
    requires LayersOf(stages, sizes) && Shifted(stages, sizes, start, globals)
    requires n <= |sizes| && start <= g < start + Sum(sizes[..n])
    ensures i < n && k < |stages[i]| && globals[i][k] == g
    decreases n
  {
    if n == 0 {
      assert false;
    }
    assert sizes[..n][..n - 1] == sizes[..n - 1];
    if g < start + Sum(sizes[..n - 1]) {
      i, k := NumbersCover(stages, sizes, start, globals, n - 1, g);
    } else {
      i := n - 1;
      var l: nat := g - start - Sum(sizes[..i]);
      assert HasLayers(stages[i], sizes[i]);
      assert l in stages[i];
      k :| 0 <= k < |stages[i]| && stages[i][k] == l;
    }
  }

  /** Some layer got the number `g`. */
  ghost predicate Given(globals: seq<seq<nat>>, g: nat) {
    exists i, k :: 0 <= i < |globals| && 0 <= k < |globals[i]| && globals[i][k] == g
  }

  /** With the stages of a plan the numbers are exactly those of the layers of the model. */
  lemma {:induction false} PlanNumbersAllLayers(
    layers: nat, pp: nat, sizes: seq<nat>, stages: seq<seq<nat>>, globals: seq<seq<nat>>, g: nat)
    requires pp > 0 && Best(layers, pp, sizes) && |stages| == pp
    requires forall i | 0 <= i < pp :: HasLayers(stages[i], sizes[i])
    requires Shifted(stages, sizes, 0, globals)
    ensures g < layers <==> Given(globals, g)
  {
    assert sizes[..pp] == sizes;
    if g < layers {
      var i, k := NumbersCover(stages, sizes, 0, globals, pp, g);
      assert globals[i][k] == g;
    }
    forall i, k | 0 <= i < pp && 0 <= k < |globals[i]| && globals[i][k] == g ensures g < layers {
      NumbersDiffer(stages, sizes, 0, globals, i, k, i, k);
    }
  }

  // ------------------------------------------------------------------ several ranks, a stage each

  /** `np.cumsum`, and where the stage of a rank begins. */
  method RankStart(sizes: seq<nat>, rank: nat) returns (start: nat)
    requires rank < |sizes|
    ensures start == Sum(sizes[..rank])
  {
    var sums: seq<nat> := [];
    var total := 0;
    for i := 0 to |sizes|
      invariant |sums| == i && total == Sum(sizes[..i])
      invariant forall j | 0 <= j < i :: sums[j] == Sum(sizes[..j + 1])
    {
      assert sizes[..i + 1][..i] == sizes[..i];
      total := total + sizes[i];
      sums := sums + [total];
    }
    assert sizes[..0] == [];
    start := if rank == 0 then 0 else sums[rank - 1];
  }

  /** One rank numbers the layers of its own stage. */
  method MergeOwnStage(stage: seq<nat>, sizes: seq<nat>, rank: nat) returns (globals: seq<nat>)
    requires rank < |sizes| && HasLayers(stage, sizes[rank])
    ensures |globals| == |stage| && forall k | 0 <= k < |stage| :: globals[k] == Sum(sizes[..rank]) + stage[k]
  {
    var start := RankStart(sizes, rank);
    var all := MergeLayers([stage], [sizes[rank]], start);
    globals := all[0];
  }

  /** The ranks, each on its own, give the numbers that one rank gives to all stages. */
  method MergeOnAllRanks(stages: seq<seq<nat>>, layers: nat, sizes: seq<nat>) returns (globals: seq<seq<nat>>)
    requires |sizes| > 0 && Best(layers, |sizes|, sizes) && LayersOf(stages, sizes)
    ensures Shifted(stages, sizes, 0, globals)
    ensures forall g: nat :: Given(globals, g) <==> g < layers
  {
    globals := [];
    for rank := 0 to |stages|
      invariant |globals| == rank
      invariant forall i | 0 <= i < rank ::
                  && |globals[i]| == |stages[i]|
                  && forall k | 0 <= k < |stages[i]| :: globals[i][k] == Sum(sizes[..i]) + stages[i][k]
    {
      assert HasLayers(stages[rank], sizes[rank]);
      var own := MergeOwnStage(stages[rank], sizes, rank);
      globals := globals + [own];
    }
    forall g: nat ensures Given(globals, g) <==> g < layers {
      PlanNumbersAllLayers(layers, |sizes|, sizes, stages, globals, g);
    }
  }
}
