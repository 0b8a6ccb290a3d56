/** Products, quotients and remainders of natural numbers. */
module Arithmetic {

  function Min(a: nat, b: nat): nat { if a < b then a else b }

  lemma MulMono(a: int, b: int, n: nat)
    ensures a <= b ==> a * n <= b * n
  {
  }

  /** A cell of a grid comes before the grid's end. */
  lemma InGrid(i: nat, j: nat, rows: nat, width: nat)
    requires i < rows && j < width
    ensures i * width + j < rows * width
  {
    MulMono(i + 1, rows, width);
    assert (i + 1) * width == i * width + width;
  }

  lemma DivBounds(x: nat, g: nat)
    requires g > 0
    ensures x / g * g <= x < x / g * g + g
  {
    assert x == x / g * g + x % g;
  }

  /** Row and column of a cell. */
  lemma DivMod(n: nat, q: nat, r: nat)
    requires r < n
    ensures (q * n + r) / n == q && (q * n + r) % n == r
  {
    var d := q * n + r;
    assert d == d / n * n + d % n;
    MulMono(d / n + 1, q, n);
    MulMono(q + 1, d / n, n);
  }

  lemma DivBelow(d: nat, n: nat, q: nat)
    requires n > 0 && d < q * n
    ensures d / n < q
  {
    DivBounds(d, n);
    MulMono(q, d / n, n);
  }

  lemma MulDivides(q: nat, g: nat)
    requires g > 0
    ensures (q * g) % g == 0
  {
    DivMod(g, q, 0);
  }

  lemma Multiples(i: nat, chunk: nat, g: nat)
    requires g > 0 && chunk % g == 0
    ensures (i * chunk) % g == 0
  {
    assert chunk == chunk / g * g;
    assert i * chunk == (i * (chunk / g)) * g;
    MulDivides(i * (chunk / g), g);
  }

  lemma MultipleMinus(a: nat, b: nat, g: nat)
    requires g > 0 && a % g == 0 && b % g == 0 && b <= a
    ensures (a - b) % g == 0
  {
    assert a == a / g * g && b == b / g * g;
    var q := a / g - b / g;
    assert a - b == q * g;
    MulMono(q, -1, g);
    MulDivides(q, g);
  }

  lemma ModShift(d: nat, n: nat)
    requires n > 0 && d >= n
    ensures (d - n) % n == d % n
  {
    DivBounds(d, n);
    MulMono(d / n, 0, n);
    var q, r := d / n, d % n;
    assert d == q * n + r;
    assert d - n == (q - 1) * n + r;
    DivMod(n, q - 1, r);
  }
}
