/** Finite sums of reals. */
module Sums {

  /** f(0) + ... + f(n - 1) */
  ghost function Sum(n: nat, f: int -> real): real {
    if n == 0 then 0.0 else Sum(n - 1, f) + f(n - 1)
  }

  lemma {:induction false} SumEq(n: nat, f: int -> real, g: int -> real)
    requires forall i :: 0 <= i < n ==> f(i) == g(i)
    ensures Sum(n, f) == Sum(n, g)
  {
    if n > 0 { SumEq(n - 1, f, g); }
  }

  lemma {:induction false} SumZero(n: nat, f: int -> real)
    requires forall i :: 0 <= i < n ==> f(i) == 0.0
    ensures Sum(n, f) == 0.0
  {
    if n > 0 { SumZero(n - 1, f); }
  }

  lemma {:induction false} SumAdd(n: nat, f: int -> real, g: int -> real)
    ensures Sum(n, i => f(i) + g(i)) == Sum(n, f) + Sum(n, g)
  {
    if n > 0 { SumAdd(n - 1, f, g); }
  }

  lemma {:induction false} SumScale(n: nat, c: real, f: int -> real)
    ensures Sum(n, i => c * f(i)) == c * Sum(n, f)
  {
    if n > 0 { SumScale(n - 1, c, f); }
  }

  lemma {:induction false} SumLe(n: nat, f: int -> real, g: int -> real)
    requires forall i :: 0 <= i < n ==> f(i) <= g(i)
    ensures Sum(n, f) <= Sum(n, g)
  {
    if n > 0 { SumLe(n - 1, f, g); }
  }

  lemma {:induction false} SumConst(n: nat, f: int -> real, v: real)
    requires forall i :: 0 <= i < n ==> f(i) == v
    ensures Sum(n, f) == n as real * v
  {
    if n > 0 {
      SumConst(n - 1, f, v);
      assert n as real == (n - 1) as real + 1.0;
      assert n as real * v == (n - 1) as real * v + v;
    }
  }

  /** A sum in which one term counts. */
  lemma {:induction false} SumOnly(n: nat, f: int -> real, at: nat)
    requires forall i :: 0 <= i < n && i != at ==> f(i) == 0.0
    ensures Sum(n, f) == if at < n then f(at) else 0.0
  {
    if at < n - 1 { SumOnly(n - 1, f, at); } else if n > 0 { SumZero(n - 1, f); }
  }

  /** Of two sums, one below the other term by term, the totals agree exactly when the terms do. */
  lemma {:induction false} SumSameIff(n: nat, f: int -> real, g: int -> real)
    requires forall m :: 0 <= m < n ==> f(m) <= g(m)
    ensures Sum(n, f) == Sum(n, g) <==> forall m :: 0 <= m < n ==> f(m) == g(m)
  {
    if n > 0 {
      SumSameIff(n - 1, f, g);
      SumLe(n - 1, f, g);
    }
  }

  /** Sums may be taken in either order. */
  lemma {:induction false} SumSwap(m: nat, n: nat, f: (int, int) -> real)
    ensures Sum(m, i => Sum(n, j => f(i, j))) == Sum(n, j => Sum(m, i => f(i, j)))
  {
    if m == 0 {
      SumZero(n, j => Sum(m, i => f(i, j)));
    } else {
      SumSwap(m - 1, n, f);
      var rows: int -> real := i => Sum(n, j => f(i, j));
      var cols: int -> real := j => Sum(m - 1, i => f(i, j));
      var last: int -> real := j => f(m - 1, j);
      SumAdd(n, cols, last);
      SumEq(n, j => Sum(m, i => f(i, j)), j => cols(j) + last(j));
      assert Sum(m, rows) == Sum(m - 1, rows) + rows(m - 1);
      SumEq(n, j => f(m - 1, j), last);
    }
  }

  /** A sum over a product range is a double sum. */
  lemma {:induction false} SumProduct(a: nat, b: nat, f: int -> real)
    ensures Sum(a * b, f) == Sum(a, i => Sum(b, j => f(i * b + j)))
  {
    var rows: int -> real := i => Sum(b, j => f(i * b + j));
    if a > 0 {
      SumProduct(a - 1, b, f);
      assert a * b == (a - 1) * b + b;
      SumSplit((a - 1) * b, b, f);
      SumEq(a - 1, i => Sum(b, j => f(i * b + j)), rows);
      SumEq(b, j => f((a - 1) * b + j), j => f((a - 1) * b + j));
      assert rows(a - 1) == Sum(b, j => f((a - 1) * b + j));
      SumEq(a, i => Sum(b, j => f(i * b + j)), rows);
    }
  }

  lemma {:induction false} SumSplit(m: nat, n: nat, f: int -> real)
    ensures Sum(m + n, f) == Sum(m, f) + Sum(n, j => f(m + j))
  {
    if n > 0 {
      SumSplit(m, n - 1, f);
    }
  }

  /** A window of a sum is a difference of two prefix sums. */
  lemma {:induction false} SumWindow(n: nat, p: nat, q: nat, f: int -> real)
    requires p <= q <= n
    ensures Sum(n, m => if p <= m < q then f(m) else 0.0) == Sum(q, f) - Sum(p, f)
  {
    var w: int -> real := m => if p <= m < q then f(m) else 0.0;
    if n > q {
      SumWindow(n - 1, p, q, f);
    } else if q > p {
      SumWindow(q - 1, p, q - 1, f);
      SumEq(q - 1, w, m => if p <= m < q - 1 then f(m) else 0.0);
    } else {
      SumZero(n, w);
    }
  }
}
