/** Facts about products and quotients that several modules use. */
module Arith {

  function Min(x: nat, y: nat): nat {
    if x <= y then x else y
  }

  function Max(x: nat, y: nat): nat {
    if x >= y then x else y
  }

  lemma {:induction false} TimesGrows(a: int, b: int, d: nat)
    requires a <= b
    ensures a * d <= b * d
  {
  }

  lemma {:induction false} QuotientIs(a: nat, d: nat, x: nat)
    requires d > 0 && x * d <= a < x * d + d
    ensures a / d == x && a % d == a - x * d
  {
    var q := a / d;
    assert q * d + a % d == a;
    assert (q + 1) * d == q * d + d && (x + 1) * d == x * d + d;
    if q < x {
      TimesGrows(q + 1, x, d);
    }
    if q > x {
      TimesGrows(x + 1, q, d);
    }
  }

  /** The exact multiple that a remainder of zero stands for. */
  lemma {:induction false} Multiple(a: nat, d: nat)
    requires d > 0 && a % d == 0
    ensures a == (a / d) * d
  {
  }

  lemma {:induction false} TimesAssociates(a: nat, b: nat, c: nat)
    ensures a * (b * c) == (a * b) * c
  {
  }

  lemma {:induction false} TimesSwap(a: nat, b: nat, c: nat)
    ensures (a * b) * c == (a * c) * b
  {
  }

  lemma {:induction false} TimesSum(a: nat, b: nat, c: nat)
    ensures a * (b + c) == a * b + a * c
  {
  }

  /** Dividing in two steps. */
  lemma {:induction false} DivideTwice(rows: nat, a: nat, b: nat)
    requires a > 0 && b > 0
    ensures rows % (a * b) == 0 <==> rows % a == 0 && (rows / a) % b == 0
    ensures rows % (a * b) == 0 ==> rows == (rows / (a * b)) * (a * b)
  {
    assert a * b > 0;
    if rows % (a * b) == 0 {
      var x := rows / (a * b);
      Multiple(rows, a * b);
      assert rows == (x * b) * a;
      QuotientIs(rows, a, x * b);
      QuotientIs(x * b, b, x);
    }
    if rows % a == 0 && (rows / a) % b == 0 {
      var y := rows / a / b;
      Multiple(rows, a);
      Multiple(rows / a, b);
      assert rows == y * (a * b);
      QuotientIs(rows, a * b, y);
    }
  }

  /** The rows of `g` blocks of `n` rows each. */
  function Rows(g: nat, n: nat): nat {
    if g == 0 then 0 else Rows(g - 1, n) + n
  }

  lemma {:induction false} RowsStep(g: nat, n: nat)
    requires g > 0
    ensures Rows(g, n) == Rows(g - 1, n) + n
  {
  }

  lemma {:induction false} RowsIs(g: nat, n: nat)
    ensures Rows(g, n) == g * n
  {
    if g > 0 {
      RowsIs(g - 1, n);
      assert g * n == (g - 1) * n + n;
    }
  }

  lemma {:induction false} RowsSum(a: nat, b: nat, n: nat)
    ensures Rows(a + b, n) == Rows(a, n) + Rows(b, n)
  {
    if b > 0 {
      RowsSum(a, b - 1, n);
    }
  }

  lemma {:induction false} RowsOfRows(a: nat, g: nat, n: nat)
    ensures Rows(a, Rows(g, n)) == Rows(a * g, n)
  {
    if a > 0 {
      RowsOfRows(a - 1, g, n);
      RowsSum((a - 1) * g, g, n);
      assert a * g == (a - 1) * g + g;
    }
  }

  /** The block that position `k` lies in, and its place there. */
  lemma {:induction false} InBlock(k: nat, g: nat, n: nat)
    requires g > 0 && Rows(g - 1, n) <= k < Rows(g, n)
    ensures n > 0 && k / n == g - 1 && k % n == k - Rows(g - 1, n)
  {
    RowsIs(g - 1, n);
    QuotientIs(k, n, g - 1);
  }
}
