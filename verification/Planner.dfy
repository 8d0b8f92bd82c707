/** Splitting the layers of a model over pipeline stages, and numbering them again afterwards. */
module Planner {
  import opened Arith

  datatype Outcome = Plan(stages: seq<nat>) | BadArguments | NoPlan

  function Sum(s: seq<nat>): nat {
    if s == [] then 0 else Sum(s[..|s| - 1]) + s[|s| - 1]
  }

  function CeilDiv(a: int, b: int): int
    requires b > 0
  {
    (a + b - 1) / b
  }

  lemma {:induction false} CeilDivBounds(a: int, b: int)
    requires b > 0
    ensures (CeilDiv(a, b) - 1) * b < a <= CeilDiv(a, b) * b
  {
    assert a + b - 1 == b * ((a + b - 1) / b) + (a + b - 1) % b;
  }

  /** `CeilDiv(a, b)` is the least m with a <= m * b. */
  lemma {:induction false} CeilDivLeast(a: int, b: int, m: int)
    requires b > 0
    ensures a <= m * b <==> CeilDiv(a, b) <= m
  {
    var c := CeilDiv(a, b);
    CeilDivBounds(a, b);
    if c <= m {
      assert c * b <= m * b;
    } else {
      assert m * b <= (c - 1) * b;
    }
  }

  // ------------------------------------------------------------------ which plans there are

  /** The candidate with `m` layers in every middle stage. */
  function First(layers: int, pp: int, m: int): int {
    (layers - m * (pp - 2)) / 2
  }

  function Last(layers: int, pp: int, m: int): int {
    layers - m * (pp - 2) - First(layers, pp, m)
  }

  predicate Admissible(layers: int, pp: int, m: int) {
    && 0 <= m < layers
    && 0 < First(layers, pp, m) <= m && 0 < Last(layers, pp, m) <= m
  }

  /** With the middle stages as small as the layers allow, the two outer stages get a layer each. */
  predicate Feasible(layers: int, pp: int)
    requires pp > 0
  {
    CeilDiv(layers, pp) * (pp - 2) + 2 <= layers
  }

  lemma {:induction false} AdmissibleMeans(layers: int, pp: int, m: int)
    requires pp >= 3
    ensures Admissible(layers, pp, m) <==> CeilDiv(layers, pp) <= m && m * (pp - 2) + 2 <= layers
  {
    CeilDivLeast(layers, pp, m);
    assert m * pp == m * (pp - 2) + 2 * m;
    if m >= 0 {
      assert m * (pp - 2) >= m;
    } else {
      assert m * (pp - 2) <= m;
    }
  }

  /** A plan exists exactly when the smallest candidate is one. */
  lemma {:induction false} FeasibleMeans(layers: int, pp: int)
    requires pp >= 3
    ensures Feasible(layers, pp) <==> exists m :: Admissible(layers, pp, m)
    ensures Feasible(layers, pp) ==> Admissible(layers, pp, CeilDiv(layers, pp))
  {
    hide Admissible, CeilDiv;
    AdmissibleMeans(layers, pp, CeilDiv(layers, pp));
    forall m | Admissible(layers, pp, m) ensures Feasible(layers, pp) {
      AdmissibleMeans(layers, pp, m);
      TimesGrows(CeilDiv(layers, pp), m, pp - 2);
    }
  }

  /** How many layers short of full stages a feasible number may be: `layers == q * pp - s`. */
  lemma {:induction false} FeasibleByShortfall(q: nat, pp: int, s: nat)
    requires pp >= 3 && q >= 1 && s < pp
    ensures Feasible(q * pp - s, pp) <==> s <= 2 * q - 2
  {
    var layers := q * pp - s;
    CeilDivLeast(layers, pp, q);
    CeilDivLeast(layers, pp, q - 1);
    assert (q - 1) * pp == q * pp - pp;
    assert CeilDiv(layers, pp) == q;
    assert q * (pp - 2) == q * pp - 2 * q;
  }

  /** From this number of layers on, a plan always exists ... */
  function Enough(pp: int): int {
    (pp / 2) * (pp - 2) + 2
  }

  lemma {:induction false} OnePart(q: int, pp: int)
    ensures (q - 1) * pp == q * pp - pp
  {
  }

  lemma {:induction false} EnoughLayers(layers: int, pp: int)
    requires pp >= 3 && layers >= Enough(pp)
    ensures Feasible(layers, pp)
  {
    var q, h := CeilDiv(layers, pp), pp / 2;
    CeilDivBounds(layers, pp);
    hide CeilDiv;
    if q >= h + 1 {
      OnePart(q, pp);
      FeasibleByShortfall(q, pp, q * pp - layers);
    } else {
      TimesGrows(q, h, pp - 2);
    }
  }

  /** ... and with one layer less there is none. */
  lemma {:induction false} EnoughIsTight(pp: int)
    requires pp >= 4
    ensures Enough(pp) - 1 >= pp && !Feasible(Enough(pp) - 1, pp)
  {
    hide CeilDiv, Enough;
    var h := pp / 2;
    var layers := Enough(pp) - 1;
    EnoughAround(pp);
    CeilDivLeast(layers, pp, h - 1);
    TimesGrows(h, CeilDiv(layers, pp), pp - 2);
  }

  lemma {:induction false} EnoughAround(pp: int)
    requires pp >= 4
    ensures pp <= Enough(pp) - 1 == (pp / 2) * (pp - 2) + 1
    ensures Enough(pp) - 1 > (pp / 2 - 1) * pp
  {
    var h := pp / 2;
    TimesGrows(2, h, pp - 2);
    assert (h - 1) * pp == h * (pp - 2) + 2 * h - pp;
  }

  // ------------------------------------------------------------------ which plan is chosen

  /** The difference that the candidates are sorted by grows with the middle stages. */
  lemma {:induction false} DifferenceGrows(layers: int, pp: int, m: int, m': int)
    requires pp >= 3 && m < m'
    ensures m - First(layers, pp, m) < m' - First(layers, pp, m')
  {
    assert m * (pp - 2) < m' * (pp - 2) by {
      assert (m' - m) * (pp - 2) >= 1;
      assert m' * (pp - 2) == m * (pp - 2) + (m' - m) * (pp - 2);
    }
  }

  function Stages(layers: int, pp: int, m: int): seq<nat>
    requires pp >= 3 && Admissible(layers, pp, m)
  {
    [First(layers, pp, m)] + seq(pp - 2, i => m) + [Last(layers, pp, m)]
  }

  lemma {:induction false} SumConcat(a: seq<nat>, b: seq<nat>)
    ensures Sum(a + b) == Sum(a) + Sum(b)
  {
    if b == [] {
      assert a + b == a;
    } else {
      assert (a + b)[..|a + b| - 1] == a + b[..|b| - 1];
      SumConcat(a, b[..|b| - 1]);
    }
  }

  lemma {:induction false} SumSame(n: nat, m: nat)
    ensures Sum(seq(n, i => m)) == n * m
  {
    var s := seq(n, i => m);
    if n > 0 {
      assert s[..n - 1] == seq(n - 1, i => m);
      SumSame(n - 1, m);
    }
  }

  lemma {:induction false} SumOne(x: nat)
    ensures Sum([x]) == x
  {
    assert [x][..0] == [];
  }

  lemma {:induction false} StagesSum(layers: int, pp: int, m: int)
    requires pp >= 3 && Admissible(layers, pp, m)
    ensures Sum(Stages(layers, pp, m)) == layers
  {
    var first, middle, last := [First(layers, pp, m) as nat], seq(pp - 2, i => m as nat), [Last(layers, pp, m) as nat];
    assert Stages(layers, pp, m) == first + middle + last;
    SumConcat(first + middle, last);
    SumConcat(first, middle);
    SumOne(first[0]);
    SumOne(last[0]);
    SumSame(pp - 2, m);
  }

  /** `pp` positive stages of all the layers, none larger than the average rounded up. */
  ghost predicate Best(layers: int, pp: int, stages: seq<nat>)
    requires pp > 0
  {
    && |stages| == pp && Sum(stages) == layers
    && forall i | 0 <= i < pp :: 0 < stages[i] <= CeilDiv(layers, pp)
  }

  /** Of several stages the middle ones have the average rounded up; the two outer ones share the rest, and
      where it is odd the last has one more. */
  ghost predicate Shaped(layers: int, pp: int, stages: seq<nat>)
    requires pp > 0 && |stages| == pp
  {
    pp >= 2 ==>
      && stages[0] <= stages[pp - 1] <= stages[0] + 1
      && forall i | 0 < i < pp - 1 :: stages[i] == CeilDiv(layers, pp)
  }

  lemma {:induction false} StagesShaped(layers: int, pp: int)
    requires pp >= 3 && Admissible(layers, pp, CeilDiv(layers, pp))
    ensures |Stages(layers, pp, CeilDiv(layers, pp))| == pp
    ensures Shaped(layers, pp, Stages(layers, pp, CeilDiv(layers, pp)))
  {
  }

  lemma {:induction false} SumOfOuter(stages: seq<nat>)
    requires |stages| >= 2
    ensures Sum(stages) == stages[0] + Sum(stages[1..|stages| - 1]) + stages[|stages| - 1]
  {
    var n := |stages| - 1;
    SumConcat([stages[0]], stages[1..n]);
    SumOne(stages[0]);
    assert stages[..n] == [stages[0]] + stages[1..n];
  }

  /** So there is only one such plan. */
  lemma {:induction false} OnePlan(layers: int, pp: int, a: seq<nat>, b: seq<nat>)
    requires pp > 0 && |a| == |b| == pp && Sum(a) == Sum(b) == layers
    requires Shaped(layers, pp, a) && Shaped(layers, pp, b)
    ensures a == b
  {
    if pp == 1 {
      assert a == [a[0]] && b == [b[0]];
      SumOne(a[0]);
      SumOne(b[0]);
    } else {
      assert a[1..pp - 1] == b[1..pp - 1];
      SumOfOuter(a);
      SumOfOuter(b);
      forall i | 0 <= i < pp ensures a[i] == b[i] {
      }
    }
  }

  lemma {:induction false} SumAtMost(s: seq<nat>, m: nat)
    requires forall i | 0 <= i < |s| :: s[i] <= m
    ensures Sum(s) <= |s| * m
  {
    if s != [] {
      var n := |s| - 1;
      SumAtMost(s[..n], m);
      assert |s| * m == n * m + m;
    }
  }

  /** No split of the layers over `pp` stages, of whatever form, has a smaller largest stage. */
  lemma {:induction false} NothingBetter(layers: nat, pp: nat, stages: seq<nat>, bound: nat)
    requires pp > 0 && |stages| == pp && Sum(stages) == layers
    requires forall i | 0 <= i < pp :: stages[i] <= bound
    ensures CeilDiv(layers, pp) <= bound
  {
    SumAtMost(stages, bound);
    assert pp * bound == bound * pp;
    CeilDivLeast(layers, pp, bound);
  }

  lemma {:induction false} StagesBest(layers: int, pp: int)
    requires pp >= 3 && Feasible(layers, pp)
    ensures Admissible(layers, pp, CeilDiv(layers, pp))
    ensures Best(layers, pp, Stages(layers, pp, CeilDiv(layers, pp)))
  {
    var m := CeilDiv(layers, pp);
    FeasibleMeans(layers, pp);
    StagesSum(layers, pp, m);
  }

  lemma {:induction false} TwoStagesBest(layers: int)
    requires layers >= 2
    ensures Best(layers, 2, [layers / 2, layers - layers / 2])
  {
    SumConcat([layers / 2], [layers - layers / 2]);
    SumOne(layers / 2);
    SumOne(layers - layers / 2);
    assert [layers / 2 as nat] + [layers - layers / 2 as nat] == [layers / 2, layers - layers / 2];
    assert CeilDiv(layers, 2) == layers - layers / 2;
  }

  lemma {:induction false} OneStageBest(layers: int)
    requires layers >= 1
    ensures Best(layers, 1, [layers])
  {
    SumOne(layers);
    assert CeilDiv(layers, 1) == layers;
  }

  /** A candidate: its middle stages, and what it is sorted by. */
  datatype Candidate = Candidate(m: nat, difference: nat)

  /** The candidates below `n`, in order. */
  ghost predicate Candidates(layers: int, pp: int, n: int, cs: seq<Candidate>) {
    && (forall i, j | 0 <= i < j < |cs| :: cs[i].m < cs[j].m)
    && (forall i | 0 <= i < |cs| ::
          cs[i].m < n && Admissible(layers, pp, cs[i].m) && cs[i].difference == cs[i].m - First(layers, pp, cs[i].m))
    && (forall m | 0 <= m < n && Admissible(layers, pp, m) :: exists i :: 0 <= i < |cs| && cs[i].m == m)
  }

  method Collect(layers: int, pp: int) returns (cs: seq<Candidate>)
    requires layers >= 0
    ensures Candidates(layers, pp, layers, cs)
  {
    hide First, Last;
    cs := [];
    for m: int := 0 to layers
      invariant Candidates(layers, pp, m, cs)
    {
      var first, last := First(layers, pp, m), Last(layers, pp, m);
      if 0 < first <= m && 0 < last <= m {
        ghost var before := cs;
        cs := cs + [Candidate(m, m - first)];
        assert cs[|before|].m == m && forall i | 0 <= i < |before| :: cs[i] == before[i];
      }
    }
  }

  /** `get_dynamic_pipeline_shards`. */
  method DynamicPipelineShards(layers: int, pp: int) returns (out: Outcome)
    ensures out == BadArguments <==> layers < pp || pp < 1
    ensures out == NoPlan <==> layers >= pp >= 3 && !Feasible(layers, pp)
    ensures out.Plan? ==> Best(layers, pp, out.stages) && Shaped(layers, pp, out.stages)
  {
    hide Best, Feasible, Admissible, Sum;
    if layers < pp {
      return BadArguments;
    }
    if pp < 1 {
      return BadArguments;
    }
    if pp == 1 {
      OneStageBest(layers);
      return Plan([layers]);
    }
    if pp == 2 {
      TwoStagesBest(layers);
      return Plan([layers / 2, layers - layers / 2]);
    }
    var cs := Collect(layers, pp);
    FeasibleMeans(layers, pp);
    if cs == [] {
      NoCandidates(layers, pp);
      return NoPlan;
    }
    // A stable sort puts the first of the smallest differences in front.
    var best := 0;
    for i := 1 to |cs|
      invariant best == 0
    {
      if cs[i].difference < cs[best].difference {
        best := i;
      }
      DifferenceGrows(layers, pp, cs[0].m, cs[i].m);
    }
    FirstCandidate(layers, pp, cs);
    StagesBest(layers, pp);
    StagesShaped(layers, pp);
    out := Plan(Stages(layers, pp, cs[best].m));
  }

  lemma {:induction false} NoCandidates(layers: int, pp: int)
    requires pp >= 3 && Candidates(layers, pp, layers, [])
    ensures !Feasible(layers, pp)
  {
    FeasibleMeans(layers, pp);
    forall m | 0 <= m < layers ensures !Admissible(layers, pp, m) {
    }
  }

  lemma {:induction false} FirstCandidate(layers: int, pp: int, cs: seq<Candidate>)
    requires pp >= 3 && Candidates(layers, pp, layers, cs) && cs != []
    ensures Feasible(layers, pp) && cs[0].m == CeilDiv(layers, pp)
  {
    FeasibleMeans(layers, pp);
    var c := CeilDiv(layers, pp);
    assert Admissible(layers, pp, cs[0].m);
    AdmissibleMeans(layers, pp, cs[0].m);
    assert Admissible(layers, pp, c);
    var i :| 0 <= i < |cs| && cs[i].m == c;
  }
}
