/** Mean and standard deviation of each group of scores, from one pass of scatter-adds, over the real
    numbers. */
module Groupwise {
  import opened Reals

  /** The scores of one group, in order. */
  function Members(scores: seq<real>, gidx: seq<nat>, g: nat): seq<real>
    requires |scores| == |gidx|
  {
    if scores == [] then []
    else
      var n := |scores| - 1;
      var before := Members(scores[..n], gidx[..n], g);
      if gidx[n] == g then before + [scores[n]] else before
  }

  function Sum(xs: seq<real>): real {
    if xs == [] then 0.0 else Sum(xs[..|xs| - 1]) + xs[|xs| - 1]
  }

  function Square(x: real): real {
    x * x
  }

  function SumOfSquares(xs: seq<real>): real {
    if xs == [] then 0.0 else SumOfSquares(xs[..|xs| - 1]) + Square(xs[|xs| - 1])
  }

  function Mean(xs: seq<real>): real
    requires xs != []
  {
    Sum(xs) / |xs| as real
  }

  /** The sum of the squared distances from `m`. */
  function Spread(xs: seq<real>, m: real): real {
    if xs == [] then 0.0
    else
      Spread(xs[..|xs| - 1], m) + Square(xs[|xs| - 1] - m)
  }

  function Variance(xs: seq<real>): real
    requires |xs| >= 2
  {
    Spread(xs, Mean(xs)) / (|xs| - 1) as real
  }

  lemma {:induction false} SquareNotNegative(x: real)
    ensures Square(x) >= 0.0
  {
  }

  lemma {:induction false} SpreadNotNegative(xs: seq<real>, m: real)
    ensures Spread(xs, m) >= 0.0
  {
    if xs != [] {
      SpreadNotNegative(xs[..|xs| - 1], m);
      SquareNotNegative(xs[|xs| - 1] - m);
    }
  }

  lemma {:induction false} SquareOfDifference(x: real, m: real)
    ensures Square(x - m) == Square(x) - 2.0 * (m * x) + m * m
  {
  }

  lemma {:induction false} Distribute(m: real, a: real, x: real)
    ensures m * (a + x) == m * a + m * x
  {
  }

  lemma {:induction false} OneMore(n: nat, y: real)
    ensures (n + 1) as real * y == n as real * y + y
  {
  }

  /** What the spread is in terms of the sum of squares and the sum. */
  function Expanded(squares: real, sum: real, n: nat, m: real): real {
    squares - 2.0 * (m * sum) + n as real * (m * m)
  }

  lemma {:induction false} SpreadExpands(xs: seq<real>, m: real)
    ensures Spread(xs, m) == Expanded(SumOfSquares(xs), Sum(xs), |xs|, m)
  {
    hide Square, Expanded;
    if xs == [] {
      NothingExpanded(m);
    } else {
      var n := |xs| - 1;
      SpreadExpands(xs[..n], m);
      SpreadStep(SumOfSquares(xs[..n]), Sum(xs[..n]), n, xs[n], m);
    }
  }

  lemma {:induction false} NothingExpanded(m: real)
    ensures Expanded(0.0, 0.0, 0, m) == 0.0
  {
  }

  lemma {:induction false} SpreadStep(squares: real, sum: real, n: nat, x: real, m: real)
    ensures Expanded(squares, sum, n, m) + Square(x - m) == Expanded(squares + Square(x), sum + x, n + 1, m)
  {
    SquareOfDifference(x, m);
    hide Square;
    Distribute(m, sum, x);
    OneMore(n, m * m);
  }

  /** The one-pass form: sum of squares less the squared sum over the count. */
  lemma {:induction false} OnePassIsSpread(xs: seq<real>)
    requires xs != []
    ensures SumOfSquares(xs) - Sum(xs) * Sum(xs) / |xs| as real == Spread(xs, Mean(xs))
  {
    hide Expanded;
    SpreadExpands(xs, Mean(xs));
    ExpandedAtMean(SumOfSquares(xs), Sum(xs), |xs|, Mean(xs));
  }

  lemma {:induction false} ExpandedAtMean(squares: real, sum: real, n: nat, m: real)
    requires n > 0 && m == sum / n as real
    ensures Expanded(squares, sum, n, m) == squares - sum * sum / n as real
  {
    assert m * n as real == sum;
    MeanTimesSum(sum, n as real, m);
  }

  lemma {:induction false} MeanTimesSum(s: real, n: real, m: real)
    requires n > 0.0 && m * n == s
    ensures n * (m * m) == m * s && s * s / n == m * s
  {
    assert n * (m * m) == m * (m * n);
    assert s * s == (m * s) * n;
    QuotientIs(s * s, n, m * s);
  }

  lemma {:induction false} VarianceNotNegative(xs: seq<real>)
    requires |xs| >= 2
    ensures Variance(xs) >= 0.0
  {
    SpreadNotNegative(xs, Mean(xs));
    NotNegativeQuotient(Spread(xs, Mean(xs)), (|xs| - 1) as real);
  }

  lemma {:induction false} NotNegativeQuotient(x: real, y: real)
    requires x >= 0.0 && y > 0.0
    ensures x / y >= 0.0
  {
    var q := x / y;
    assert q * y == x;
    if q < 0.0 {
      NegativeProduct(q, y);
    }
  }

  lemma {:induction false} NegativeProduct(q: real, y: real)
    requires q < 0.0 && y > 0.0
    ensures q * y < 0.0
  {
  }

  // ------------------------------------------------------------------ scatter-adds

  /** What is added to cell `g`. */
  function Scattered(gidx: seq<nat>, xs: seq<real>, g: nat): real
    requires |gidx| == |xs|
  {
    Sum(Members(xs, gidx, g))
  }

  /** `zeros(size).index_add_(0, gidx, xs)`. */
  method IndexAdd(size: nat, gidx: seq<nat>, xs: seq<real>) returns (cells: array<real>)
    requires |gidx| == |xs| && forall i | 0 <= i < |gidx| :: gidx[i] < size
    ensures fresh(cells) && cells.Length == size
    ensures forall g | 0 <= g < size :: cells[g] == Scattered(gidx, xs, g)
  {
    cells := new real[size](_ => 0.0);
    for i := 0 to |xs|
      invariant forall g | 0 <= g < size :: cells[g] == Scattered(gidx[..i], xs[..i], g)
    {
      forall g | 0 <= g < size
        ensures Scattered(gidx[..i + 1], xs[..i + 1], g)
             == Scattered(gidx[..i], xs[..i], g) + (if gidx[i] == g then xs[i] else 0.0)
      {
        ScatteredNext(gidx, xs, i, g);
      }
      cells[gidx[i]] := cells[gidx[i]] + xs[i];
    }
    assert gidx[..|xs|] == gidx && xs[..|xs|] == xs;
  }

  lemma {:induction false} SumSnoc(xs: seq<real>, x: real)
    ensures Sum(xs + [x]) == Sum(xs) + x
  {
    assert (xs + [x])[..|xs|] == xs;
  }

  lemma {:induction false} ScatteredNext(gidx: seq<nat>, xs: seq<real>, i: nat, g: nat)
    requires |gidx| == |xs| && i < |xs|
    ensures Scattered(gidx[..i + 1], xs[..i + 1], g)
         == Scattered(gidx[..i], xs[..i], g) + (if gidx[i] == g then xs[i] else 0.0)
  {
    assert gidx[..i + 1][..i] == gidx[..i] && xs[..i + 1][..i] == xs[..i];
    assert gidx[..i + 1][i] == gidx[i] && xs[..i + 1][i] == xs[i];
    SumSnoc(Members(xs[..i], gidx[..i], g), xs[i]);
  }

  function Ones(n: nat): (r: seq<real>)
    ensures |r| == n
  {
    seq(n, i => 1.0)
  }

  function Squares(xs: seq<real>): (r: seq<real>)
    ensures |r| == |xs|
  {
    seq(|xs|, i requires 0 <= i < |xs| => Square(xs[i]))
  }

  lemma {:induction false} MembersNext(xs: seq<real>, gidx: seq<nat>, g: nat)
    requires |xs| == |gidx| > 0
    ensures var n := |xs| - 1;
            var before := Members(xs[..n], gidx[..n], g);
            Members(xs, gidx, g) == if gidx[n] == g then before + [xs[n]] else before
  {
  }

  /** The last row adds to its own cell only. */
  lemma {:induction false} ScatteredLast(gidx: seq<nat>, xs: seq<real>, g: nat)
    requires |gidx| == |xs| > 0
    ensures var n := |xs| - 1;
            Scattered(gidx, xs, g) == Scattered(gidx[..n], xs[..n], g) + (if gidx[n] == g then xs[n] else 0.0)
  {
    hide Scattered;
    var n := |xs| - 1;
    ScatteredNext(gidx, xs, n, g);
    assert gidx[..n + 1] == gidx && xs[..n + 1] == xs;
  }

  lemma {:induction false} CountIsLength(scores: seq<real>, gidx: seq<nat>, g: nat)
    requires |scores| == |gidx|
    ensures Scattered(gidx, Ones(|scores|), g) == |Members(scores, gidx, g)| as real
  {
    hide Members, Scattered;
    if scores == [] {
      NothingScattered(g);
    } else {
      var n := |scores| - 1;
      CountIsLength(scores[..n], gidx[..n], g);
      assert Ones(n + 1)[..n] == Ones(n) && Ones(n + 1)[n] == 1.0;
      ScatteredLast(gidx, Ones(n + 1), g);
      MembersNext(scores, gidx, g);
    }
  }

  lemma {:induction false} NothingScattered(g: nat)
    ensures Scattered([], [], g) == 0.0 && Members([], [], g) == [] && SumOfSquares([]) == 0.0
    ensures Ones(0) == [] && Squares([]) == []
  {
  }

  lemma {:induction false} SumOfSquaresSnoc(xs: seq<real>, x: real)
    ensures SumOfSquares(xs + [x]) == SumOfSquares(xs) + Square(x)
  {
    assert (xs + [x])[..|xs|] == xs;
  }

  lemma {:induction false} SquaresSum(scores: seq<real>, gidx: seq<nat>, g: nat)
    requires |scores| == |gidx|
    ensures Scattered(gidx, Squares(scores), g) == SumOfSquares(Members(scores, gidx, g))
  {
    hide Square, Members, Scattered, SumOfSquares;
    if scores == [] {
      NothingScattered(g);
    } else {
      var n := |scores| - 1;
      SquaresSum(scores[..n], gidx[..n], g);
      assert Squares(scores)[..n] == Squares(scores[..n]) && Squares(scores)[n] == Square(scores[n]);
      ScatteredLast(gidx, Squares(scores), g);
      MembersNext(scores, gidx, g);
      SumOfSquaresSnoc(Members(scores[..n], gidx[..n], g), scores[n]);
    }
  }

  // ------------------------------------------------------------------ group statistics

  /** What the statistics of a group should be. */
  ghost predicate GroupStats(xs: seq<real>, eps: real, sqrt: real -> real, mean: real, std: real, count: real) {
    && count == |xs| as real
    && if |xs| >= 2 then mean == Mean(xs) && Variance(xs) >= 0.0 && std == sqrt(Max(Variance(xs), eps))
       else mean == 0.0 && std == 1.0
  }

  /** One group, from its three sums; the clamps only matter for groups of at most one. */
  function MeanOf(count: real, s1: real): real {
    s1 / Max(count, 1.0)
  }

  function VarianceOf(count: real, s1: real, s2: real): real {
    (s2 - s1 * s1 / Max(count, 1.0)) / Max(count - 1.0, 1.0)
  }

  lemma {:induction false} SumsOfMany(n: nat, s1: real, s2: real, spread: real)
    requires n >= 2 && spread == s2 - s1 * s1 / n as real
    ensures MeanOf(n as real, s1) == s1 / n as real
    ensures VarianceOf(n as real, s1, s2) == spread / (n - 1) as real
  {
    assert n as real - 1.0 == (n - 1) as real;
  }

  lemma {:induction false} StatsFromSums(xs: seq<real>)
    requires |xs| >= 2
    ensures MeanOf(|xs| as real, Sum(xs)) == Mean(xs)
    ensures VarianceOf(|xs| as real, Sum(xs), SumOfSquares(xs)) == Variance(xs) >= 0.0
  {
    hide MeanOf, VarianceOf, Sum, SumOfSquares, Spread;
    OnePassIsSpread(xs);
    SumsOfMany(|xs|, Sum(xs), SumOfSquares(xs), Spread(xs, Mean(xs)));
    VarianceNotNegative(xs);
  }

  method MaxIndex(gidx: seq<nat>) returns (m: nat)
    requires gidx != []
    ensures m in gidx && forall i | 0 <= i < |gidx| :: gidx[i] <= m
  {
    m := gidx[0];
    for i := 1 to |gidx|
      invariant m in gidx && forall j | 0 <= j < i :: gidx[j] <= m
    {
      if gidx[i] > m {
        m := gidx[i];
      }
    }
  }

  /** The element-wise part. */
  method FromSums(count: array<real>, s1: array<real>, s2: array<real>, eps: real, sqrt: real -> real)
    returns (mean: array<real>, std: array<real>)
    requires count.Length == s1.Length == s2.Length
    ensures fresh(mean) && fresh(std) && mean != std && mean.Length == std.Length == count.Length
    ensures forall g | 0 <= g < count.Length ::
              mean[g] == MeanOf(count[g], s1[g]) && std[g] == sqrt(Max(VarianceOf(count[g], s1[g], s2[g]), eps))
  {
    hide MeanOf, VarianceOf, Max;
    mean, std := new real[count.Length], new real[count.Length];
    for g := 0 to count.Length
      invariant forall h | 0 <= h < g ::
                  mean[h] == MeanOf(count[h], s1[h]) && std[h] == sqrt(Max(VarianceOf(count[h], s1[h], s2[h]), eps))
      modifies mean, std
    {
      mean[g] := MeanOf(count[g], s1[g]);
      std[g] := sqrt(Max(VarianceOf(count[g], s1[g], s2[g]), eps));
    }
  }

  /** Groups of at most one score get mean 0 and deviation 1. */
  method OverwriteSingles(count: array<real>, mean: array<real>, std: array<real>)
    requires count.Length == mean.Length == std.Length && mean != std && mean != count && std != count
    modifies mean, std
    ensures forall g | 0 <= g < count.Length ::
              if count[g] <= 1.0 then mean[g] == 0.0 && std[g] == 1.0
              else mean[g] == old(mean[g]) && std[g] == old(std[g])
  {
    for g := 0 to count.Length
      invariant forall h | 0 <= h < g ::
                  if count[h] <= 1.0 then mean[h] == 0.0 && std[h] == 1.0
                  else mean[h] == old(mean[h]) && std[h] == old(std[h])
      invariant forall h | g <= h < count.Length :: mean[h] == old(mean[h]) && std[h] == old(std[h])
    {
      if count[g] <= 1.0 {
        mean[g] := 0.0;
        std[g] := 1.0;
      }
    }
  }

  lemma {:induction false} StatsOfGroup(
    scores: seq<real>, gidx: seq<nat>, g: nat, eps: real, sqrt: real -> real, mean: real, std: real, count: real)
    requires |scores| == |gidx|
    requires count == Scattered(gidx, Ones(|scores|), g)
    requires var s1, s2 := Scattered(gidx, scores, g), Scattered(gidx, Squares(scores), g);
             if count <= 1.0 then mean == 0.0 && std == 1.0
             else mean == MeanOf(count, s1) && std == sqrt(Max(VarianceOf(count, s1, s2), eps))
    ensures GroupStats(Members(scores, gidx, g), eps, sqrt, mean, std, count)
  {
    hide MeanOf, VarianceOf, Mean, Variance, Members, Ones, Squares, Sum, SumOfSquares;
    CountIsLength(scores, gidx, g);
    SquaresSum(scores, gidx, g);
    var xs := Members(scores, gidx, g);
    if |xs| >= 2 {
      StatsFromSums(xs);
    }
  }

  /** `group_mean_std`; `sqrt` is the square root of the tensor library. */
  method GroupMeanStd(scores: seq<real>, gidx: seq<nat>, eps: real, sqrt: real -> real)
    returns (ok: bool, mean: array<real>, std: array<real>, count: array<real>)
    ensures ok <==> |scores| == |gidx|
    ensures ok ==> mean.Length == std.Length == count.Length
    ensures ok ==> forall g | g in gidx :: g < mean.Length
    ensures ok && mean.Length > 0 ==> mean.Length - 1 in gidx
    ensures ok ==> forall g | 0 <= g < mean.Length ::
              GroupStats(Members(scores, gidx, g), eps, sqrt, mean[g], std[g], count[g])
  {
    hide GroupStats, Members, Scattered, Ones, MeanOf, VarianceOf;
    mean, std, count := new real[0], new real[0], new real[0];
    ok := |scores| == |gidx|;
    if !ok || gidx == [] {
      return;
    }
    var last := MaxIndex(gidx);
    count := IndexAdd(last + 1, gidx, Ones(|scores|));
    var s1 := IndexAdd(last + 1, gidx, scores);
    var s2 := IndexAdd(last + 1, gidx, Squares(scores));
    mean, std := FromSums(count, s1, s2, eps, sqrt);
    OverwriteSingles(count, mean, std);
    forall g | 0 <= g < mean.Length
      ensures GroupStats(Members(scores, gidx, g), eps, sqrt, mean[g], std[g], count[g])
    {
      StatsOfGroup(scores, gidx, g, eps, sqrt, mean[g], std[g], count[g]);
    }
  }
}
