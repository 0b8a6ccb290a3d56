/**
 The Sinkhorn section of the hyper-connection pre-block: softmax over rows plus eps, one column
 normalisation, then alternating row and column normalisations. Over the reals, with any exponential that is
 positive, no step divides by zero and the columns of the result are what the next layer relies on.
 */
module Sinkhorn {
  import opened Sums

  type Matrix = (int, int) -> real

  /** Division made total; every use below is proved to have a positive divisor. */
  function Div(a: real, b: real): real { if b == 0.0 then 0.0 else a / b }

  ghost function RowTerms(m: Matrix, j: int): int -> real { k => m(j, k) }
  ghost function ColTerms(m: Matrix, k: int): int -> real { j => m(j, k) }
  ghost function RowSum(n: nat, m: Matrix, j: int): real { Sum(n, RowTerms(m, j)) }
  ghost function ColSum(n: nat, m: Matrix, k: int): real { Sum(n, ColTerms(m, k)) }

  ghost function NormRows(n: nat, m: Matrix, eps: real): Matrix { (j, k) => Div(m(j, k), RowSum(n, m, j) + eps) }
  ghost function NormCols(n: nat, m: Matrix, eps: real): Matrix { (j, k) => Div(m(j, k), ColSum(n, m, k) + eps) }

  ghost function Exps(exp: real -> real, shift: int -> real, m: Matrix): Matrix { (j, k) => exp(m(j, k) - shift(j)) }

  ghost function Softmax(n: nat, exp: real -> real, shift: int -> real, m: Matrix, eps: real): Matrix {
    var e := Exps(exp, shift, m);
    (j, k) => Div(e(j, k), RowSum(n, e, j)) + eps
  }

  /** Row then column normalisation, `times` times. */
  ghost function Alternate(n: nat, m: Matrix, eps: real, times: nat): Matrix {
    if times == 0 then m
    else NormCols(n, NormRows(n, Alternate(n, m, eps, times - 1), eps), eps)
  }

  ghost function Balanced(n: nat, exp: real -> real, shift: int -> real, m: Matrix, eps: real, times: int): Matrix {
    Alternate(n, NormCols(n, Softmax(n, exp, shift, m, eps), eps), eps, if times > 1 then times - 1 else 0)
  }

  ghost predicate Positive(n: nat, m: Matrix) {
    forall j, k :: 0 <= j < n && 0 <= k < n ==> m(j, k) > 0.0
  }

  /** Column sums are one without eps and strictly below one, but positive, with it. */
  ghost predicate ColumnsBounded(n: nat, m: Matrix, eps: real) {
    forall k :: 0 <= k < n ==> 0.0 < ColSum(n, m, k) <= 1.0 && (eps == 0.0 <==> ColSum(n, m, k) == 1.0)
  }

  // ------------------------------------------------------------------ positivity

  lemma {:induction false} SumPositive(n: nat, f: int -> real)
    requires n > 0 && forall i :: 0 <= i < n ==> f(i) > 0.0
    ensures Sum(n, f) > 0.0
  {
    if n > 1 { SumPositive(n - 1, f); } else { assert Sum(1, f) == f(0); }
  }

  lemma SumsPositive(n: nat, m: Matrix)
    requires Positive(n, m)
    ensures forall j :: 0 <= j < n ==> RowSum(n, m, j) > 0.0
    ensures forall k :: 0 <= k < n ==> ColSum(n, m, k) > 0.0
  {
    forall j | 0 <= j < n ensures RowSum(n, m, j) > 0.0 { SumPositive(n, RowTerms(m, j)); }
    forall k | 0 <= k < n ensures ColSum(n, m, k) > 0.0 { SumPositive(n, ColTerms(m, k)); }
  }

  lemma QuotientPositive(a: real, b: real)
    requires a > 0.0 && b > 0.0
    ensures Div(a, b) > 0.0
  {
  }

  lemma SoftmaxPositive(n: nat, exp: real -> real, shift: int -> real, m: Matrix, eps: real)
    requires eps >= 0.0 && forall x :: exp(x) > 0.0
    ensures Positive(n, Exps(exp, shift, m)) && Positive(n, Softmax(n, exp, shift, m, eps))
  {
    var e := Exps(exp, shift, m);
    SumsPositive(n, e);
    forall j, k | 0 <= j < n && 0 <= k < n ensures Softmax(n, exp, shift, m, eps)(j, k) > 0.0 {
      QuotientPositive(e(j, k), RowSum(n, e, j));
    }
  }

  lemma NormalisedPositive(n: nat, m: Matrix, eps: real)
    requires eps >= 0.0 && Positive(n, m)
    ensures Positive(n, NormRows(n, m, eps)) && Positive(n, NormCols(n, m, eps))
  {
    SumsPositive(n, m);
    forall j, k | 0 <= j < n && 0 <= k < n ensures NormRows(n, m, eps)(j, k) > 0.0 && NormCols(n, m, eps)(j, k) > 0.0 {
      QuotientPositive(m(j, k), RowSum(n, m, j) + eps);
      QuotientPositive(m(j, k), ColSum(n, m, k) + eps);
    }
  }

  // ------------------------------------------------------------------ column sums

  lemma Reciprocal(a: real, d: real)
    ensures Div(a, d) == Div(1.0, d) * a
  {
    if d != 0.0 {
      assert (a / d) * d == a;
      assert ((1.0 / d) * a) * d == a;
    }
  }

  /** A normalised column sums to its old sum over that sum plus eps. */
  lemma NormColSum(n: nat, m: Matrix, eps: real, k: int)
    ensures ColSum(n, NormCols(n, m, eps), k) == Div(ColSum(n, m, k), ColSum(n, m, k) + eps)
  {
    var d := ColSum(n, m, k) + eps;
    var col := ColTerms(NormCols(n, m, eps), k);
    var inv := Div(1.0, d);
    forall j ensures col(j) == inv * ColTerms(m, k)(j) {
      assert col(j) == NormCols(n, m, eps)(j, k) == Div(m(j, k), d);
      Reciprocal(m(j, k), d);
    }
    SumEq(n, col, j => inv * ColTerms(m, k)(j));
    SumScale(n, inv, ColTerms(m, k));
    Reciprocal(ColSum(n, m, k), d);
  }

  lemma NormColsBounded(n: nat, m: Matrix, eps: real)
    requires eps >= 0.0 && Positive(n, m)
    ensures ColumnsBounded(n, NormCols(n, m, eps), eps)
  {
    hide Sum;
    SumsPositive(n, m);
    forall k | 0 <= k < n
      ensures var s := ColSum(n, NormCols(n, m, eps), k); 0.0 < s <= 1.0 && (eps == 0.0 <==> s == 1.0)
    {
      NormColSum(n, m, eps, k);
      Fraction(ColSum(n, m, k), eps);
    }
  }

  lemma Fraction(s: real, eps: real)
    requires s > 0.0 && eps >= 0.0
    ensures 0.0 < s / (s + eps) <= 1.0 && (eps == 0.0 <==> s / (s + eps) == 1.0)
  {
    var q := s / (s + eps);
    assert q * (s + eps) == s;
  }

  lemma {:induction false} AlternateBounded(n: nat, m: Matrix, eps: real, times: nat)
    requires eps >= 0.0 && Positive(n, m) && ColumnsBounded(n, m, eps)
    ensures Positive(n, Alternate(n, m, eps, times)) && ColumnsBounded(n, Alternate(n, m, eps, times), eps)
  {
    hide Positive, ColumnsBounded, NormRows, NormCols;
    if times > 0 {
      AlternateBounded(n, m, eps, times - 1);
      var prev := Alternate(n, m, eps, times - 1);
      NormalisedPositive(n, prev, eps);
      var rows := NormRows(n, prev, eps);
      NormalisedPositive(n, rows, eps);
      NormColsBounded(n, rows, eps);
    }
  }

  /** For every size, input and repeat count the result is positive and its columns are bounded by one. */
  lemma BalancedBounded(n: nat, exp: real -> real, shift: int -> real, m: Matrix, eps: real, times: int)
    requires eps >= 0.0 && forall x :: exp(x) > 0.0
    ensures Positive(n, Balanced(n, exp, shift, m, eps, times))
    ensures ColumnsBounded(n, Balanced(n, exp, shift, m, eps, times), eps)
  {
    hide Positive, ColumnsBounded, Softmax, NormCols, Alternate;
    SoftmaxPositive(n, exp, shift, m, eps);
    var soft := Softmax(n, exp, shift, m, eps);
    NormalisedPositive(n, soft, eps);
    NormColsBounded(n, soft, eps);
    AlternateBounded(n, NormCols(n, soft, eps), eps, if times > 1 then times - 1 else 0);
  }

  // ------------------------------------------------------------------ row sums

  /** Row sums are one without eps and strictly below one, but positive, with it. */
  ghost predicate RowsBounded(n: nat, m: Matrix, eps: real) {
    forall j :: 0 <= j < n ==> 0.0 < RowSum(n, m, j) <= 1.0 && (eps == 0.0 <==> RowSum(n, m, j) == 1.0)
  }

  /** A normalised row sums to its old sum over that sum plus eps. */
  lemma NormRowSum(n: nat, m: Matrix, eps: real, j: int)
    ensures RowSum(n, NormRows(n, m, eps), j) == Div(RowSum(n, m, j), RowSum(n, m, j) + eps)
  {
    var d := RowSum(n, m, j) + eps;
    var row := RowTerms(NormRows(n, m, eps), j);
    var inv := Div(1.0, d);
    forall k ensures row(k) == inv * RowTerms(m, j)(k) {
      assert row(k) == NormRows(n, m, eps)(j, k) == Div(m(j, k), d);
      Reciprocal(m(j, k), d);
    }
    SumEq(n, row, k => inv * RowTerms(m, j)(k));
    SumScale(n, inv, RowTerms(m, j));
    Reciprocal(RowSum(n, m, j), d);
  }

  lemma NormRowsBounded(n: nat, m: Matrix, eps: real)
    requires eps >= 0.0 && Positive(n, m)
    ensures RowsBounded(n, NormRows(n, m, eps), eps)
  {
    hide Sum;
    SumsPositive(n, m);
    forall j | 0 <= j < n
      ensures var s := RowSum(n, NormRows(n, m, eps), j); 0.0 < s <= 1.0 && (eps == 0.0 <==> s == 1.0)
    {
      NormRowSum(n, m, eps, j);
      Fraction(RowSum(n, m, j), eps);
    }
  }

  /** The softmax of a row sums to one, and eps is added to each of its entries. */
  lemma SoftmaxRowSum(n: nat, exp: real -> real, shift: int -> real, m: Matrix, eps: real, j: int)
    requires (forall x :: exp(x) > 0.0) && 0 <= j < n
    ensures RowSum(n, Softmax(n, exp, shift, m, eps), j) == 1.0 + n as real * eps
  {
    hide Sum;
    var e := Exps(exp, shift, m);
    var s := RowSum(n, e, j);
    var w: int -> real := k => Div(1.0, s) * RowTerms(e, j)(k);
    SumPositive(n, RowTerms(e, j));
    forall k ensures RowTerms(Softmax(n, exp, shift, m, eps), j)(k) == w(k) + eps { Reciprocal(e(j, k), s); }
    SumEq(n, RowTerms(Softmax(n, exp, shift, m, eps), j), k => w(k) + (_ => eps)(k));
    SumAdd(n, w, _ => eps);
    SumScale(n, Div(1.0, s), RowTerms(e, j));
    SumConst(n, _ => eps, eps);
  }

  // ------------------------------------------------------------------ only rows and columns are rescaled

  /** The two matrices differ by one factor per row and one per column. */
  ghost predicate Rescaled(n: nat, a: Matrix, b: Matrix) {
    forall j, k, i, l :: 0 <= j < n && 0 <= k < n && 0 <= i < n && 0 <= l < n ==> Crossed(a, b, j, k, i, l)
  }

  predicate Crossed(a: Matrix, b: Matrix, j: int, k: int, i: int, l: int) {
    b(j, k) * b(i, l) * (a(j, l) * a(i, k)) == b(j, l) * b(i, k) * (a(j, k) * a(i, l))
  }

  lemma Regroup(p: real, q: real, a: real, b: real, c: real, d: real)
    ensures (p * a) * (q * b) * (c * d) == (p * q) * ((a * b) * (c * d))
  {
    assert (p * a) * (q * b) == (p * q) * (a * b);
  }

  /** Rescaling rows keeps every cross ratio. */
  lemma RowsCross(n: nat, a: Matrix, m: Matrix, eps: real, j: int, k: int, i: int, l: int)
    requires Crossed(a, m, j, k, i, l)
    ensures Crossed(a, NormRows(n, m, eps), j, k, i, l)
  {
    hide RowSum;
    var p, q := Div(1.0, RowSum(n, m, j) + eps), Div(1.0, RowSum(n, m, i) + eps);
    Reciprocal(m(j, k), RowSum(n, m, j) + eps);
    Reciprocal(m(j, l), RowSum(n, m, j) + eps);
    Reciprocal(m(i, k), RowSum(n, m, i) + eps);
    Reciprocal(m(i, l), RowSum(n, m, i) + eps);
    Regroup(p, q, m(j, k), m(i, l), a(j, l), a(i, k));
    Regroup(p, q, m(j, l), m(i, k), a(j, k), a(i, l));
  }

  lemma ColsCross(n: nat, a: Matrix, m: Matrix, eps: real, j: int, k: int, i: int, l: int)
    requires Crossed(a, m, j, k, i, l)
    ensures Crossed(a, NormCols(n, m, eps), j, k, i, l)
  {
    hide ColSum;
    var p, q := Div(1.0, ColSum(n, m, k) + eps), Div(1.0, ColSum(n, m, l) + eps);
    Reciprocal(m(j, k), ColSum(n, m, k) + eps);
    Reciprocal(m(i, k), ColSum(n, m, k) + eps);
    Reciprocal(m(j, l), ColSum(n, m, l) + eps);
    Reciprocal(m(i, l), ColSum(n, m, l) + eps);
    Regroup(p, q, m(j, k), m(i, l), a(j, l), a(i, k));
    Regroup(q, p, m(j, l), m(i, k), a(j, k), a(i, l));
  }

  lemma {:induction false} AlternateCross(n: nat, a: Matrix, m: Matrix, eps: real, times: nat, j: int, k: int, i: int,
                                          l: int)
    requires Crossed(a, m, j, k, i, l)
    ensures Crossed(a, Alternate(n, m, eps, times), j, k, i, l)
  {
    hide Crossed, NormRows, NormCols;
    if times > 0 {
      var prev := Alternate(n, m, eps, times - 1);
      AlternateCross(n, a, m, eps, times - 1, j, k, i, l);
      RowsCross(n, a, prev, eps, j, k, i, l);
      ColsCross(n, a, NormRows(n, prev, eps), eps, j, k, i, l);
    }
  }

  /** Whatever the repeat count and eps, the result is the softmax with its rows and columns rescaled. */
  lemma BalancedRescales(n: nat, exp: real -> real, shift: int -> real, m: Matrix, eps: real, times: int)
    ensures Rescaled(n, Softmax(n, exp, shift, m, eps), Balanced(n, exp, shift, m, eps, times))
  {
    hide Softmax, NormCols, Alternate, Crossed;
    var soft := Softmax(n, exp, shift, m, eps);
    forall j, k, i, l | 0 <= j < n && 0 <= k < n && 0 <= i < n && 0 <= l < n
      ensures Crossed(soft, Balanced(n, exp, shift, m, eps, times), j, k, i, l)
    {
      SelfCrossed(soft, j, k, i, l);
      ColsCross(n, soft, soft, eps, j, k, i, l);
      AlternateCross(n, soft, NormCols(n, soft, eps), eps, if times > 1 then times - 1 else 0, j, k, i, l);
    }
  }

  lemma SelfCrossed(a: Matrix, j: int, k: int, i: int, l: int)
    ensures Crossed(a, a, j, k, i, l)
  {
  }

  // ------------------------------------------------------------------ what the alternation is after

  ghost predicate DoublyStochastic(n: nat, m: Matrix) {
    forall i :: 0 <= i < n ==> RowSum(n, m, i) == 1.0 && ColSum(n, m, i) == 1.0
  }

  ghost predicate Same(n: nat, a: Matrix, b: Matrix) {
    forall j, k :: 0 <= j < n && 0 <= k < n ==> a(j, k) == b(j, k)
  }

  lemma SameSums(n: nat, a: Matrix, b: Matrix)
    requires Same(n, a, b)
    ensures forall i :: 0 <= i < n ==> RowSum(n, a, i) == RowSum(n, b, i) && ColSum(n, a, i) == ColSum(n, b, i)
  {
    forall i | 0 <= i < n ensures RowSum(n, a, i) == RowSum(n, b, i) && ColSum(n, a, i) == ColSum(n, b, i) {
      SumEq(n, RowTerms(a, i), RowTerms(b, i));
      SumEq(n, ColTerms(a, i), ColTerms(b, i));
    }
  }

  /** Row sums and column sums add up to the same total. */
  lemma TotalBothWays(n: nat, m: Matrix)
    ensures Sum(n, j => RowSum(n, m, j)) == Sum(n, k => ColSum(n, m, k))
  {
    hide Sum;
    SumSwap(n, n, m);
    forall j ensures RowSum(n, m, j) == Sum(n, k => m(j, k)) { SumEq(n, RowTerms(m, j), k => m(j, k)); }
    forall k ensures ColSum(n, m, k) == Sum(n, j => m(j, k)) { SumEq(n, ColTerms(m, k), j => m(j, k)); }
    SumEq(n, j => RowSum(n, m, j), j => Sum(n, k => m(j, k)));
    SumEq(n, k => ColSum(n, m, k), k => Sum(n, j => m(j, k)));
  }

  /** One alternation divides each entry by its row's sum and by its column's sum after that. */
  lemma AlternationAt(n: nat, m: Matrix, j: int, k: int)
    requires Positive(n, m) && 0 <= j < n && 0 <= k < n
    ensures var rows := NormRows(n, m, 0.0);
            && RowSum(n, m, j) > 0.0 && ColSum(n, rows, k) > 0.0
            && Alternate(n, m, 0.0, 1)(j, k) * (RowSum(n, m, j) * ColSum(n, rows, k)) == m(j, k)
  {
    hide Sum, Positive, RowSum, ColSum;
    var rows := NormRows(n, m, 0.0);
    NormalisedPositive(n, m, 0.0);
    SumsPositive(n, m);
    SumsPositive(n, rows);
    assert Alternate(n, m, 0.0, 0) == m;
    var r, c := RowSum(n, m, j), ColSum(n, rows, k);
    assert rows(j, k) == Div(m(j, k), r + 0.0);
    assert Alternate(n, m, 0.0, 1)(j, k) == Div(rows(j, k), c + 0.0);
    TwoQuotients(m(j, k), r, c);
  }

  lemma TwoQuotients(a: real, r: real, c: real)
    requires r > 0.0 && c > 0.0
    ensures a / r / c * (r * c) == a
  {
    assert a / r * r == a;
    assert a / r / c * c == a / r;
    assert a / r / c * (r * c) == a / r / c * c * r;
  }

  /** Without eps the alternation leaves a positive matrix alone if and only if its rows and columns sum to one. */
  lemma AlternationFixedIff(n: nat, m: Matrix)
    requires Positive(n, m)
    ensures Same(n, Alternate(n, m, 0.0, 1), m) <==> DoublyStochastic(n, m)
  {
    if DoublyStochastic(n, m) {
      StochasticFixed(n, m);
    }
    if Same(n, Alternate(n, m, 0.0, 1), m) {
      FixedStochastic(n, m);
    }
  }

  lemma StochasticFixed(n: nat, m: Matrix)
    requires Positive(n, m) && DoublyStochastic(n, m)
    ensures Same(n, Alternate(n, m, 0.0, 1), m)
  {
    hide Sum, Positive, RowSum, ColSum, Alternate;
    var rows := NormRows(n, m, 0.0);
    assert Same(n, rows, m);
    SameSums(n, rows, m);
    forall j, k | 0 <= j < n && 0 <= k < n ensures Alternate(n, m, 0.0, 1)(j, k) == m(j, k) {
      AlternationAt(n, m, j, k);
    }
  }

  lemma FixedStochastic(n: nat, m: Matrix)
    requires Positive(n, m) && Same(n, Alternate(n, m, 0.0, 1), m)
    ensures DoublyStochastic(n, m)
  {
    hide Sum, Positive, RowSum, ColSum, Alternate;
    if n > 0 {
      FixedColumns(n, m);
      var rows := NormRows(n, m, 0.0);
      var c := ColSum(n, rows, 0);
      AlternationAt(n, m, 0, 0);
      forall j | 0 <= j < n ensures c > 0.0 && RowSum(n, m, j) == 1.0 / c {
        AlternationAt(n, m, j, 0);
        PositiveAt(n, m, j, 0);
        FactorOne(Alternate(n, m, 0.0, 1)(j, 0), m(j, 0), RowSum(n, m, j), c);
      }
      RowsAreOne(n, m, 1.0 / c);
    }
  }

  lemma PositiveAt(n: nat, m: Matrix, j: int, k: int)
    requires Positive(n, m) && 0 <= j < n && 0 <= k < n
    ensures m(j, k) > 0.0
  {
  }

  lemma FactorOne(b: real, a: real, r: real, c: real)
    requires a > 0.0 && c > 0.0 && b * (r * c) == a && b == a
    ensures r == 1.0 / c
  {
    assert a * (r * c - 1.0) == 0.0;
    assert r * c == 1.0;
    assert 1.0 / c * c == 1.0;
    assert (r - 1.0 / c) * c == 0.0;
  }

  /** A matrix the alternation leaves alone has just been column-normalised. */
  lemma FixedColumns(n: nat, m: Matrix)
    requires Positive(n, m) && Same(n, Alternate(n, m, 0.0, 1), m)
    ensures forall k :: 0 <= k < n ==> ColSum(n, m, k) == 1.0
  {
    hide Sum, Positive, RowSum, ColSum;
    NormalisedPositive(n, m, 0.0);
    NormColsBounded(n, NormRows(n, m, 0.0), 0.0);
    assert Alternate(n, m, 0.0, 0) == m;
    SameSums(n, Alternate(n, m, 0.0, 1), m);
  }

  lemma RowsAreOne(n: nat, m: Matrix, r: real)
    requires n > 0 && (forall k :: 0 <= k < n ==> ColSum(n, m, k) == 1.0)
    requires forall j :: 0 <= j < n ==> RowSum(n, m, j) == r
    ensures DoublyStochastic(n, m)
  {
    hide Sum, RowSum, ColSum;
    TotalBothWays(n, m);
    SumConst(n, j => RowSum(n, m, j), r);
    SumConst(n, k => ColSum(n, m, k), 1.0);
    SameFactor(r, 1.0, n as real);
  }

  // ------------------------------------------------------------------ repeats only bring the rows closer to one

  ghost predicate RowsWithin(n: nat, m: Matrix, lo: real, hi: real) {
    forall j :: 0 <= j < n ==> lo <= RowSum(n, m, j) <= hi
  }

  ghost predicate ColsWithin(n: nat, m: Matrix, lo: real, hi: real) {
    forall k :: 0 <= k < n ==> lo <= ColSum(n, m, k) <= hi
  }

  /** Weights that sum to one, each divided by something between lo and hi. */
  lemma AverageWithin(n: nat, w: int -> real, d: int -> real, f: int -> real, lo: real, hi: real)
    requires 0.0 < lo <= hi && Sum(n, w) == 1.0
    requires forall i :: 0 <= i < n ==> w(i) > 0.0 && lo <= d(i) <= hi && f(i) == Div(w(i), d(i))
    ensures 1.0 / hi <= Sum(n, f) <= 1.0 / lo
  {
    hide Sum;
    var up: int -> real := i => 1.0 / lo * w(i);
    var down: int -> real := i => 1.0 / hi * w(i);
    forall i | 0 <= i < n ensures down(i) <= f(i) <= up(i) { QuotientWithin(w(i), d(i), lo, hi); }
    SumLe(n, f, up);
    SumLe(n, down, f);
    SumScale(n, 1.0 / lo, w);
    SumScale(n, 1.0 / hi, w);
  }

  lemma QuotientWithin(w: real, d: real, lo: real, hi: real)
    requires w > 0.0 && 0.0 < lo <= d <= hi
    ensures 1.0 / hi * w <= w / d <= 1.0 / lo * w
  {
    Inverse(lo, d);
    Inverse(d, hi);
    Reciprocal(w, d);
    assert (1.0 / lo - 1.0 / d) * w >= 0.0 && (1.0 / d - 1.0 / hi) * w >= 0.0;
    assert (1.0 / lo - 1.0 / d) * w == 1.0 / lo * w - 1.0 / d * w;
    assert (1.0 / d - 1.0 / hi) * w == 1.0 / d * w - 1.0 / hi * w;
  }

  lemma Inverse(a: real, b: real)
    requires 0.0 < a <= b
    ensures 1.0 / b <= 1.0 / a
  {
    var p, q := 1.0 / a, 1.0 / b;
    assert p * a == 1.0 && q * b == 1.0;
    assert q * (b - a) >= 0.0;
    assert (p - q) * a == p * a - q * a == q * b - q * a == q * (b - a);
    NonNegative(p - q, a);
  }

  lemma NonNegative(x: real, a: real)
    requires a > 0.0 && x * a >= 0.0
    ensures x >= 0.0
  {
  }

  /** After a row step the columns are within the inverse bounds of the rows before it. */
  lemma ColsAfterRows(n: nat, m: Matrix, lo: real, hi: real)
    requires Positive(n, m) && 0.0 < lo <= hi && RowsWithin(n, m, lo, hi) && ColsWithin(n, m, 1.0, 1.0)
    ensures ColsWithin(n, NormRows(n, m, 0.0), 1.0 / hi, 1.0 / lo)
  {
    hide Sum;
    forall k | 0 <= k < n ensures 1.0 / hi <= ColSum(n, NormRows(n, m, 0.0), k) <= 1.0 / lo {
      assert ColSum(n, m, k) == 1.0;
      AverageWithin(n, ColTerms(m, k), j => RowSum(n, m, j), ColTerms(NormRows(n, m, 0.0), k), lo, hi);
    }
  }

  lemma RowsAfterCols(n: nat, m: Matrix, lo: real, hi: real)
    requires Positive(n, m) && 0.0 < lo <= hi && ColsWithin(n, m, lo, hi) && RowsWithin(n, m, 1.0, 1.0)
    ensures RowsWithin(n, NormCols(n, m, 0.0), 1.0 / hi, 1.0 / lo)
  {
    hide Sum;
    forall j | 0 <= j < n ensures 1.0 / hi <= RowSum(n, NormCols(n, m, 0.0), j) <= 1.0 / lo {
      assert RowSum(n, m, j) == 1.0;
      AverageWithin(n, RowTerms(m, j), k => ColSum(n, m, k), RowTerms(NormCols(n, m, 0.0), j), lo, hi);
    }
  }

  /** Without eps no repeat moves the extremes of the row sums further apart. */
  lemma {:induction false} AlternateContracts(n: nat, m: Matrix, lo: real, hi: real, times: nat)
    requires Positive(n, m) && 0.0 < lo <= hi && RowsWithin(n, m, lo, hi) && ColumnsBounded(n, m, 0.0)
    ensures RowsWithin(n, Alternate(n, m, 0.0, times), lo, hi)
  {
    hide Positive, RowsWithin, ColsWithin, NormRows, NormCols, ColSum;
    if times > 0 {
      AlternateContracts(n, m, lo, hi, times - 1);
      AlternateBounded(n, m, 0.0, times - 1);
      OneAlternation(n, Alternate(n, m, 0.0, times - 1), lo, hi);
    }
  }

  lemma OneAlternation(n: nat, m: Matrix, lo: real, hi: real)
    requires Positive(n, m) && 0.0 < lo <= hi && RowsWithin(n, m, lo, hi) && ColumnsBounded(n, m, 0.0)
    ensures RowsWithin(n, NormCols(n, NormRows(n, m, 0.0), 0.0), lo, hi)
  {
    hide Positive, NormRows, NormCols, ColSum, RowSum;
    var rows := NormRows(n, m, 0.0);
    ColsAfterRows(n, m, lo, hi);
    NormalisedPositive(n, m, 0.0);
    NormRowsBounded(n, m, 0.0);
    Inverse(lo, hi);
    assert 1.0 / hi > 0.0;
    RowsAfterCols(n, rows, 1.0 / hi, 1.0 / lo);
    assert 1.0 / (1.0 / hi) == hi && 1.0 / (1.0 / lo) == lo;
  }

  /** A higher repeat count is that many more alternations of the result for a lower one. */
  lemma {:induction false} RepeatsAddUp(n: nat, m: Matrix, eps: real, times: nat, more: nat)
    ensures Alternate(n, m, eps, times + more) == Alternate(n, Alternate(n, m, eps, times), eps, more)
  {
    hide NormRows, NormCols;
    if more > 0 { RepeatsAddUp(n, m, eps, times, more - 1); }
  }

  /**
   One more repeat changes nothing if and only if the rows already sum to one, and the row sums of the result only
   ever come closer together.
   */
  lemma OneMoreRepeat(n: nat, exp: real -> real, shift: int -> real, m: Matrix, times: nat, lo: real, hi: real)
    requires (forall x :: exp(x) > 0.0) && times > 0
    ensures var b := Balanced(n, exp, shift, m, 0.0, times);
            var more := Balanced(n, exp, shift, m, 0.0, times + 1);
            && (Same(n, more, b) <==> forall j :: 0 <= j < n ==> RowSum(n, b, j) == 1.0)
            && (0.0 < lo <= hi && RowsWithin(n, b, lo, hi) ==> RowsWithin(n, more, lo, hi))
  {
    hide Softmax, NormRows, NormCols, RowSum, ColSum, RowsWithin, Same, Positive;
    var b := Balanced(n, exp, shift, m, 0.0, times);
    var first := NormCols(n, Softmax(n, exp, shift, m, 0.0), 0.0);
    BalancedBounded(n, exp, shift, m, 0.0, times);
    RepeatsAddUp(n, first, 0.0, times - 1, 1);
    assert Balanced(n, exp, shift, m, 0.0, times + 1) == Alternate(n, b, 0.0, 1);
    AlternationFixedIff(n, b);
    if 0.0 < lo <= hi && RowsWithin(n, b, lo, hi) { AlternateContracts(n, b, lo, hi, 1); }
  }

  // ------------------------------------------------------------------ there is only one way to balance

  ghost function Ratio(a: Matrix, b: Matrix, j: int, k: int): real { Div(b(j, k), a(j, k)) }

  /** The row whose first entry grew most. */
  lemma {:induction false} MostGrown(n: nat, a: Matrix, b: Matrix) returns (most: nat)
    requires n > 0
    ensures most < n && forall i :: 0 <= i < n ==> Ratio(a, b, i, 0) <= Ratio(a, b, most, 0)
  {
    if n == 1 {
      most := 0;
    } else {
      most := MostGrown(n - 1, a, b);
      if Ratio(a, b, most, 0) < Ratio(a, b, n - 1, 0) { most := n - 1; }
    }
  }

  lemma Ratios(a: real, b: real)
    requires a > 0.0 && b > 0.0
    ensures Div(b, a) > 0.0 && b == Div(b, a) * a
  {
  }

  /** If row `j` grew more than row `i` in one column, it did so in every column. */
  lemma GrewEverywhere(n: nat, a: Matrix, b: Matrix, j: nat, i: nat, k: nat)
    requires Positive(n, a) && Positive(n, b) && Rescaled(n, a, b) && j < n && i < n && k < n
    requires Ratio(a, b, i, 0) <= Ratio(a, b, j, 0)
    ensures Ratio(a, b, i, k) <= Ratio(a, b, j, k)
  {
    assert Crossed(a, b, j, k, i, 0);
    PositiveAt(n, a, j, k);
    PositiveAt(n, a, i, k);
    PositiveAt(n, a, j, 0);
    PositiveAt(n, a, i, 0);
    PositiveAt(n, b, j, k);
    PositiveAt(n, b, i, k);
    PositiveAt(n, b, j, 0);
    PositiveAt(n, b, i, 0);
    CrossOrder(a(j, k), a(i, k), a(j, 0), a(i, 0), b(j, k), b(i, k), b(j, 0), b(i, 0));
  }

  lemma CrossOrder(ajk: real, aik: real, aj: real, ai: real, bjk: real, bik: real, bj: real, bi: real)
    requires ajk > 0.0 && aik > 0.0 && aj > 0.0 && ai > 0.0 && bjk > 0.0 && bik > 0.0 && bj > 0.0 && bi > 0.0
    requires bjk * bi * (aj * aik) == bj * bik * (ajk * ai) && Div(bi, ai) <= Div(bj, aj)
    ensures Div(bik, aik) <= Div(bjk, ajk)
  {
    var p, q, u, v := Div(bjk, ajk), Div(bik, aik), Div(bj, aj), Div(bi, ai);
    Ratios(ajk, bjk);
    Ratios(aik, bik);
    Ratios(aj, bj);
    Ratios(ai, bi);
    Factored(p, v, u, q, ajk, ai, aj, aik);
    LargerFactor(p, v, u, q);
  }

  lemma Factored(p: real, v: real, u: real, q: real, ajk: real, ai: real, aj: real, aik: real)
    requires ajk > 0.0 && ai > 0.0 && aj > 0.0 && aik > 0.0
    requires (p * ajk) * (v * ai) * (aj * aik) == (u * aj) * (q * aik) * (ajk * ai)
    ensures p * v == u * q
  {
    var w := (ajk * ai) * (aj * aik);
    assert w > 0.0;
    Regroup(p, v, ajk, ai, aj, aik);
    Regroup(u, q, aj, aik, ajk, ai);
    assert (aj * aik) * (ajk * ai) == w;
    SameFactor(p * v, u * q, w);
  }

  lemma SameFactor(x: real, y: real, w: real)
    requires w > 0.0 && x * w == y * w
    ensures x == y
  {
    assert (x - y) * w == 0.0;
  }

  lemma LargerFactor(p: real, v: real, u: real, q: real)
    requires p > 0.0 && 0.0 < v <= u && q > 0.0 && p * v == u * q
    ensures q <= p
  {
    assert (u - v) * q >= 0.0;
    assert (p - q) * v == u * q - q * v == (u - v) * q;
    NonNegative(p - q, v);
  }

  /** Two doubly stochastic matrices that differ only by factors per row and per column are the same. */
  lemma OneBalance(n: nat, a: Matrix, b: Matrix)
    requires Positive(n, a) && Positive(n, b) && Rescaled(n, a, b)
    requires DoublyStochastic(n, a) && DoublyStochastic(n, b)
    ensures Same(n, a, b)
  {
    hide Positive, Rescaled, Sum, Ratio;
    if n > 0 {
      var most := MostGrown(n, a, b);
      forall k | 0 <= k < n ensures a(most, k) <= b(most, k) { MostGrownGrows(n, a, b, most, k); }
      assert RowSum(n, a, most) == 1.0 == RowSum(n, b, most);
      SumSameIff(n, RowTerms(a, most), RowTerms(b, most));
      forall i, k | 0 <= i < n && 0 <= k < n ensures a(i, k) == b(i, k) {
        assert RowTerms(a, most)(k) == RowTerms(b, most)(k);
        ColumnSame(n, a, b, most, k);
      }
    }
  }

  lemma GrownAll(n: nat, a: Matrix, b: Matrix, most: nat, k: nat)
    requires Positive(n, a) && Positive(n, b) && Rescaled(n, a, b) && most < n && k < n
    requires forall i :: 0 <= i < n ==> Ratio(a, b, i, 0) <= Ratio(a, b, most, 0)
    ensures forall i :: 0 <= i < n ==> b(i, k) <= Ratio(a, b, most, k) * a(i, k)
  {
    hide Positive, Rescaled;
    forall i | 0 <= i < n ensures b(i, k) <= Ratio(a, b, most, k) * a(i, k) {
      GrewEverywhere(n, a, b, most, i, k);
      PositiveAt(n, a, i, k);
      PositiveAt(n, b, i, k);
      Ratios(a(i, k), b(i, k));
      assert (Ratio(a, b, most, k) - Ratio(a, b, i, k)) * a(i, k) >= 0.0;
    }
  }

  lemma MostGrownGrows(n: nat, a: Matrix, b: Matrix, most: nat, k: nat)
    requires Positive(n, a) && Positive(n, b) && Rescaled(n, a, b) && most < n && k < n
    requires forall i :: 0 <= i < n ==> Ratio(a, b, i, 0) <= Ratio(a, b, most, 0)
    requires ColSum(n, a, k) == 1.0 == ColSum(n, b, k)
    ensures a(most, k) <= b(most, k)
  {
    hide Positive, Rescaled, Sum, Ratio;
    var q := Ratio(a, b, most, k);
    GrownAll(n, a, b, most, k);
    SumLe(n, ColTerms(b, k), i => q * ColTerms(a, k)(i));
    SumScale(n, q, ColTerms(a, k));
    assert q >= 1.0;
    PositiveAt(n, a, most, k);
    PositiveAt(n, b, most, k);
    RatioBack(a, b, most, k);
    assert (q - 1.0) * a(most, k) >= 0.0;
  }

  lemma RatioBack(a: Matrix, b: Matrix, j: int, k: int)
    requires a(j, k) > 0.0 && b(j, k) > 0.0
    ensures b(j, k) == Ratio(a, b, j, k) * a(j, k)
  {
    Ratios(a(j, k), b(j, k));
  }

  lemma ColumnSame(n: nat, a: Matrix, b: Matrix, most: nat, k: nat)
    requires Positive(n, a) && Positive(n, b) && Rescaled(n, a, b) && most < n && k < n
    requires forall i :: 0 <= i < n ==> Ratio(a, b, i, 0) <= Ratio(a, b, most, 0)
    requires ColSum(n, a, k) == 1.0 == ColSum(n, b, k) && a(most, k) == b(most, k)
    ensures forall i :: 0 <= i < n ==> a(i, k) == b(i, k)
  {
    hide Positive, Rescaled, Sum, Ratio;
    GrownAll(n, a, b, most, k);
    PositiveAt(n, a, most, k);
    RatioBack(a, b, most, k);
    SameFactor(Ratio(a, b, most, k), 1.0, a(most, k));
    forall i | 0 <= i < n ensures ColTerms(b, k)(i) <= ColTerms(a, k)(i) {
      assert b(i, k) <= Ratio(a, b, most, k) * a(i, k);
    }
    SumSameIff(n, ColTerms(b, k), ColTerms(a, k));
    forall i | 0 <= i < n ensures a(i, k) == b(i, k) { assert ColTerms(b, k)(i) == ColTerms(a, k)(i); }
  }

  lemma CrossedBoth(s: Matrix, a: Matrix, b: Matrix, j: int, k: int, i: int, l: int)
    requires Crossed(s, a, j, k, i, l) && Crossed(s, b, j, k, i, l)
    requires s(j, k) > 0.0 && s(i, l) > 0.0 && s(j, l) > 0.0 && s(i, k) > 0.0
    ensures Crossed(a, b, j, k, i, l)
  {
    CancelCross(a(j, k) * a(i, l), a(j, l) * a(i, k), b(j, k) * b(i, l), b(j, l) * b(i, k), s(j, l) * s(i, k),
                s(j, k) * s(i, l));
  }

  lemma CancelCross(a: real, c: real, b: real, d: real, x: real, y: real)
    requires x > 0.0 && y > 0.0 && a * x == c * y && b * x == d * y
    ensures b * c == d * a
  {
    assert (b * c) * (x * y) == (b * x) * (c * y) == (d * y) * (a * x) == (d * a) * (x * y);
    assert x * y > 0.0;
    SameFactor(b * c, d * a, x * y);
  }

  /**
   What the repeats are after. Without eps, a result that one more repeat would not change is the one and only doubly
   stochastic rescaling of the softmax, whatever the repeat count it was reached with.
   */
  lemma SettledIsTheBalance(n: nat, exp: real -> real, shift: int -> real, m: Matrix, times: nat, d: Matrix)
    requires (forall x :: exp(x) > 0.0) && times > 0
    requires Same(n, Balanced(n, exp, shift, m, 0.0, times + 1), Balanced(n, exp, shift, m, 0.0, times))
    requires Positive(n, d) && DoublyStochastic(n, d) && Rescaled(n, Softmax(n, exp, shift, m, 0.0), d)
    ensures Same(n, Balanced(n, exp, shift, m, 0.0, times), d)
  {
    hide Softmax, Balanced, RowSum, ColSum, Same, Positive, Crossed;
    var soft, b := Softmax(n, exp, shift, m, 0.0), Balanced(n, exp, shift, m, 0.0, times);
    OneMoreRepeat(n, exp, shift, m, times, 1.0, 1.0);
    BalancedBounded(n, exp, shift, m, 0.0, times);
    BalancedRescales(n, exp, shift, m, 0.0, times);
    SoftmaxPositive(n, exp, shift, m, 0.0);
    forall j, k, i, l | 0 <= j < n && 0 <= k < n && 0 <= i < n && 0 <= l < n ensures Crossed(b, d, j, k, i, l) {
      PositiveAt(n, soft, j, k);
      PositiveAt(n, soft, i, l);
      PositiveAt(n, soft, j, l);
      PositiveAt(n, soft, i, k);
      CrossedBoth(soft, b, d, j, k, i, l);
    }
    OneBalance(n, b, d);
  }

  // ------------------------------------------------------------------ the row maximum cancels

  ghost predicate Exponential(exp: real -> real) {
    (forall x :: exp(x) > 0.0) && forall x, y :: exp(x - y) * exp(y) == exp(x)
  }

  lemma ExponentialAt(exp: real -> real, x: real, y: real)
    requires Exponential(exp)
    ensures exp(x) > 0.0 && exp(y) > 0.0 && exp(x - y) * exp(y) == exp(x)
  {
  }

  /** With a true exponential the subtracted row maximum changes nothing: the softmax is the plain one. */
  lemma ShiftCancels(n: nat, exp: real -> real, shift: int -> real, m: Matrix, eps: real, j: int, k: int)
    requires Exponential(exp) && 0 <= j < n && 0 <= k < n
    ensures Softmax(n, exp, shift, m, eps)(j, k) == Softmax(n, exp, _ => 0.0, m, eps)(j, k)
  {
    hide Exponential, Sum;
    var c := exp(shift(j));
    ExponentialAt(exp, 0.0, shift(j));
    var e, plain := Exps(exp, shift, m), Exps(exp, _ => 0.0, m);
    forall i ensures plain(j, i) == c * e(j, i) {
      ExponentialAt(exp, m(j, i), shift(j));
      assert plain(j, i) == exp(m(j, i) - 0.0);
    }
    RowScaled(n, e, plain, c, j);
    forall i ensures RowTerms(e, j)(i) > 0.0 { ExponentialAt(exp, m(j, i) - shift(j), shift(j)); }
    SumPositive(n, RowTerms(e, j));
    CancelFactor(c, e(j, k), RowSum(n, e, j));
  }

  lemma RowScaled(n: nat, e: Matrix, f: Matrix, c: real, j: int)
    requires forall i :: f(j, i) == c * e(j, i)
    ensures RowSum(n, f, j) == c * RowSum(n, e, j)
  {
    forall i ensures RowTerms(f, j)(i) == c * RowTerms(e, j)(i) { assert f(j, i) == c * e(j, i); }
    SumEq(n, RowTerms(f, j), i => c * RowTerms(e, j)(i));
    SumScale(n, c, RowTerms(e, j));
  }

  lemma CancelFactor(c: real, a: real, b: real)
    requires c > 0.0 && b > 0.0
    ensures Div(c * a, c * b) == Div(a, b)
  {
    var q := a / b;
    assert q * b == a;
    assert q * (c * b) == c * a;
    assert c * b > 0.0;
  }

  // ------------------------------------------------------------------ the kernel section

  ghost predicate Holds(cm: array2<real>, n: nat, m: Matrix)
    reads cm
  {
    cm.Length0 == n && cm.Length1 == n && forall j, k :: 0 <= j < n && 0 <= k < n ==> cm[j, k] == m(j, k)
  }

  function At(s: seq<real>): int -> real { i => if 0 <= i < |s| then s[i] else 0.0 }

  /** `mx` lists the largest entry of each row. */
  ghost predicate RowMaxima(n: nat, m: Matrix, mx: seq<real>) {
    |mx| == n && forall j :: 0 <= j < n ==> IsMax(n, RowTerms(m, j), mx[j])
  }

  ghost predicate IsMax(n: nat, f: int -> real, v: real) {
    (forall k :: 0 <= k < n ==> f(k) <= v) && exists k :: 0 <= k < n && f(k) == v
  }

  method RowMaxes(n: nat, cm: array2<real>, ghost m: Matrix) returns (mx: seq<real>)
    requires Holds(cm, n, m)
    ensures RowMaxima(n, m, mx)
  {
    hide IsMax;
    mx := [];
    for j := 0 to n
      invariant |mx| == j && forall i :: 0 <= i < j ==> IsMax(n, RowTerms(m, i), mx[i])
    {
      var v := RowMax(n, cm, j, m);
      mx := mx + [v];
    }
  }

  method RowMax(n: nat, cm: array2<real>, j: nat, ghost m: Matrix) returns (v: real)
    requires Holds(cm, n, m) && j < n
    ensures IsMax(n, RowTerms(m, j), v)
  {
    v := cm[j, 0];
    ghost var at := 0;
    for k := 1 to n
      invariant 0 <= at < k && m(j, at) == v && forall i :: 0 <= i < k ==> m(j, i) <= v
    {
      if cm[j, k] > v {
        v, at := cm[j, k], k;
      }
    }
    assert RowTerms(m, j)(at) == v;
  }

  method RowSums(n: nat, cm: array2<real>, ghost m: Matrix) returns (sums: seq<real>)
    requires Holds(cm, n, m)
    ensures |sums| == n && forall j :: 0 <= j < n ==> sums[j] == RowSum(n, m, j)
  {
    sums := [];
    for j := 0 to n
      invariant |sums| == j && forall i :: 0 <= i < j ==> sums[i] == RowSum(n, m, i)
    {
      var s := 0.0;
      for k := 0 to n
        invariant s == Sum(k, RowTerms(m, j))
      {
        s := s + cm[j, k];
      }
      sums := sums + [s];
    }
  }

  method ColSums(n: nat, cm: array2<real>, ghost m: Matrix) returns (sums: seq<real>)
    requires Holds(cm, n, m)
    ensures |sums| == n && forall k :: 0 <= k < n ==> sums[k] == ColSum(n, m, k)
  {
    sums := [];
    for k := 0 to n
      invariant |sums| == k && forall i :: 0 <= i < k ==> sums[i] == ColSum(n, m, i)
    {
      var s := 0.0;
      for j := 0 to n
        invariant s == Sum(j, ColTerms(m, k))
      {
        s := s + cm[j, k];
      }
      sums := sums + [s];
    }
  }

  method SoftmaxRows(n: nat, exp: real -> real, eps: real, cm: array2<real>, ghost m: Matrix) returns (mx: seq<real>)
    requires Holds(cm, n, m) && eps >= 0.0 && forall x :: exp(x) > 0.0
    modifies cm
    ensures RowMaxima(n, m, mx) && Holds(cm, n, Softmax(n, exp, At(mx), m, eps))
  {
    hide RowMaxima, RowSum, Holds, Positive, Exps, Softmax;
    mx := RowMaxes(n, cm, m);
    assert |mx| == n by { Lengths(n, m, mx); }
    Exponentiate(n, exp, cm, mx, m);
    SoftmaxPositive(n, exp, At(mx), m, eps);
    ghost var e := Exps(exp, At(mx), m);
    var sums := RowSums(n, cm, e);
    SumsPositive(n, e);
    Weigh(n, exp, eps, cm, sums, mx, m);
  }

  method Exponentiate(n: nat, exp: real -> real, cm: array2<real>, mx: seq<real>, ghost m: Matrix)
    requires Holds(cm, n, m) && |mx| == n
    modifies cm
    ensures Holds(cm, n, Exps(exp, At(mx), m))
  {
    forall j, k | 0 <= j < n && 0 <= k < n {
      cm[j, k] := exp(cm[j, k] - mx[j]);
    }
  }

  method Weigh(n: nat, exp: real -> real, eps: real, cm: array2<real>, sums: seq<real>, mx: seq<real>, ghost m: Matrix)
    requires Holds(cm, n, Exps(exp, At(mx), m)) && |sums| == n
    requires forall j :: 0 <= j < n ==> sums[j] == RowSum(n, Exps(exp, At(mx), m), j) > 0.0
    modifies cm
    ensures Holds(cm, n, Softmax(n, exp, At(mx), m, eps))
  {
    hide RowSum, Exps, At;
    forall j, k | 0 <= j < n && 0 <= k < n {
      cm[j, k] := cm[j, k] / sums[j] + eps;
    }
  }

  lemma Lengths(n: nat, m: Matrix, mx: seq<real>)
    requires RowMaxima(n, m, mx)
    ensures |mx| == n
  {
  }

  method NormaliseRows(n: nat, eps: real, cm: array2<real>, ghost m: Matrix)
    requires Holds(cm, n, m) && Positive(n, m) && eps >= 0.0
    modifies cm
    ensures Holds(cm, n, NormRows(n, m, eps)) && Positive(n, NormRows(n, m, eps))
    ensures RowsBounded(n, NormRows(n, m, eps), eps)
  {
    hide RowSum, ColSum, Positive, NormCols, RowsBounded;
    var sums := RowSums(n, cm, m);
    SumsPositive(n, m);
    forall j, k | 0 <= j < n && 0 <= k < n {
      cm[j, k] := cm[j, k] / (sums[j] + eps);
    }
    NormalisedPositive(n, m, eps);
    NormRowsBounded(n, m, eps);
  }

  method NormaliseCols(n: nat, eps: real, cm: array2<real>, ghost m: Matrix)
    requires Holds(cm, n, m) && Positive(n, m) && eps >= 0.0
    modifies cm
    ensures Holds(cm, n, NormCols(n, m, eps)) && Positive(n, NormCols(n, m, eps))
    ensures ColumnsBounded(n, NormCols(n, m, eps), eps)
  {
    hide RowSum, ColSum, Positive, NormRows, ColumnsBounded;
    var sums := ColSums(n, cm, m);
    SumsPositive(n, m);
    forall j, k | 0 <= j < n && 0 <= k < n {
      cm[j, k] := cm[j, k] / (sums[k] + eps);
    }
    NormalisedPositive(n, m, eps);
    NormColsBounded(n, m, eps);
  }

  /** The section as a whole, in place: no division by zero on any path, and the matrix it leaves behind. */
  method Balance(n: nat, exp: real -> real, eps: real, times: int, cm: array2<real>, ghost m: Matrix)
    returns (mx: seq<real>)
    requires Holds(cm, n, m) && eps >= 0.0 && forall x :: exp(x) > 0.0
    modifies cm
    ensures RowMaxima(n, m, mx) && Holds(cm, n, Balanced(n, exp, At(mx), m, eps, times))
    ensures Positive(n, Balanced(n, exp, At(mx), m, eps, times))
    ensures ColumnsBounded(n, Balanced(n, exp, At(mx), m, eps, times), eps)
    ensures Rescaled(n, Softmax(n, exp, At(mx), m, eps), Balanced(n, exp, At(mx), m, eps, times))
  {
    hide RowMaxima, Holds, Positive, ColumnsBounded, RowsBounded, Rescaled, Softmax, NormRows, NormCols;
    mx := SoftmaxRows(n, exp, eps, cm, m);
    ghost var soft := Softmax(n, exp, At(mx), m, eps);
    SoftmaxPositive(n, exp, At(mx), m, eps);
    NormaliseCols(n, eps, cm, soft);
    ghost var first := NormCols(n, soft, eps);
    for i := 0 to if times > 1 then times - 1 else 0
      invariant Holds(cm, n, Alternate(n, first, eps, i)) && Positive(n, Alternate(n, first, eps, i))
    {
      ghost var cur := Alternate(n, first, eps, i);
      NormaliseRows(n, eps, cm, cur);
      NormaliseCols(n, eps, cm, NormRows(n, cur, eps));
    }
    BalancedBounded(n, exp, At(mx), m, eps, times);
    BalancedRescales(n, exp, At(mx), m, eps, times);
  }
}
