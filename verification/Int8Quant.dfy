/**
 Dynamic per-token integer quantisation of one row, in exact arithmetic: a scale from the row's extremes, a
 zero point when asymmetric, rounding half to even and clamping to the integer range of the bit width.
 */
module Int8Quant {

  /** Rounds to the nearest integer, ties to the even one. */
  function Round(x: real): (n: int)
    ensures x - 0.5 <= n as real <= x + 0.5
    ensures n as real == x + 0.5 || n as real == x - 0.5 ==> n % 2 == 0
  {
    var f := x.Floor;
    var d := x - f as real;
    if d < 0.5 then f else if d > 0.5 then f + 1 else if f % 2 == 0 then f else f + 1
  }

  function Pow2(n: nat): (r: nat)
    ensures r > 0
  {
    if n == 0 then 1 else 2 * Pow2(n - 1)
  }

  lemma {:induction false} Pow2Mono(a: nat, b: nat)
    requires a < b
    ensures 2 * Pow2(a) <= Pow2(b)
    decreases b
  {
    if a < b - 1 { Pow2Mono(a, b - 1); }
  }

  /** The narrowest width each mode supports: one bit less leaves no positive level. */
  predicate Supported(sym: bool, bits: nat) { if sym then bits >= 2 else bits >= 1 }

  function QMin(sym: bool, bits: nat): int
    requires bits >= 1
  {
    if sym then -(Pow2(bits - 1) as int) else 0
  }

  function QMax(sym: bool, bits: nat): int
    requires bits >= 1
  {
    if sym then Pow2(bits - 1) - 1 else Pow2(bits) - 1
  }

  lemma QMaxPositive(sym: bool, bits: nat)
    requires Supported(sym, bits)
    ensures QMax(sym, bits) >= 1 && QMin(sym, bits) <= 0 && QMin(sym, bits) <= -QMax(sym, bits) * (if sym then 1 else 0)
  {
  }

  ghost predicate IsLeast(row: seq<real>, m: real) {
    (forall i :: 0 <= i < |row| ==> m <= row[i]) && exists i :: 0 <= i < |row| && m == row[i]
  }

  ghost predicate IsGreatest(row: seq<real>, m: real) {
    (forall i :: 0 <= i < |row| ==> row[i] <= m) && exists i :: 0 <= i < |row| && m == row[i]
  }

  function Least(row: seq<real>): (m: real)
    requires row != []
    ensures IsLeast(row, m)
  {
    if |row| == 1 then row[0]
    else
      var n := |row| - 1;
      var m := Least(row[..n]);
      assert forall i :: 0 <= i < n ==> row[..n][i] == row[i];
      if row[n] < m then row[n] else m
  }

  function Greatest(row: seq<real>): (m: real)
    requires row != []
    ensures IsGreatest(row, m)
  {
    if |row| == 1 then row[0]
    else
      var n := |row| - 1;
      var m := Greatest(row[..n]);
      assert forall i :: 0 <= i < n ==> row[..n][i] == row[i];
      if row[n] > m then row[n] else m
  }

  function Abs(x: real): real { if x < 0.0 then -x else x }

  function Max(a: real, b: real): real { if a < b then b else a }

  const MIN_SCALE := 0.00001

  /** The largest magnitude, or the distance of the extremes. */
  function Spread(row: seq<real>, sym: bool): (d: real)
    requires row != []
    ensures d >= 0.0
  {
    if sym then Max(Abs(Least(row)), Abs(Greatest(row))) else Greatest(row) - Least(row)
  }

  function Scale(row: seq<real>, sym: bool, bits: nat): (s: real)
    requires row != [] && Supported(sym, bits)
    ensures s >= MIN_SCALE
  {
    QMaxPositive(sym, bits);
    Max(Spread(row, sym) / QMax(sym, bits) as real, MIN_SCALE)
  }

  function ZeroPoint(row: seq<real>, sym: bool, bits: nat): int
    requires row != [] && Supported(sym, bits)
  {
    if sym then 0 else -Round(Least(row) / Scale(row, sym, bits))
  }

  function Clamp(n: int, lo: int, hi: int): int { if n < lo then lo else if n > hi then hi else n }

  function Quantise(row: seq<real>, sym: bool, bits: nat, x: real): int
    requires row != [] && Supported(sym, bits)
  {
    Clamp(Round(x / Scale(row, sym, bits) + ZeroPoint(row, sym, bits) as real), QMin(sym, bits), QMax(sym, bits))
  }

  function Dequantise(row: seq<real>, sym: bool, bits: nat, q: int): real
    requires row != [] && Supported(sym, bits)
  {
    (q - ZeroPoint(row, sym, bits)) as real * Scale(row, sym, bits)
  }

  /** The position of an input on the integer grid, before rounding. */
  ghost function Position(row: seq<real>, sym: bool, bits: nat, x: real): real
    requires row != [] && Supported(sym, bits)
  {
    x / Scale(row, sym, bits) + ZeroPoint(row, sym, bits) as real
  }

  // ------------------------------------------------------------------ positions stay on the grid

  lemma PosFactor(t: real, s: real)
    requires s > 0.0 && t * s >= 0.0
    ensures t >= 0.0
  {
  }

  lemma MulNonNeg(a: real, b: real)
    requires a >= 0.0 && b >= 0.0
    ensures a * b >= 0.0
  {
  }

  lemma DivLe(a: real, b: real, s: real)
    requires s > 0.0 && a <= b
    ensures a / s <= b / s
  {
    assert (b / s) * s == b && (a / s) * s == a;
    assert (b / s - a / s) * s == (b / s) * s - (a / s) * s;
    PosFactor(b / s - a / s, s);
  }

  lemma SpreadFits(spread: real, q: int, s: real)
    requires q >= 1 && s >= MIN_SCALE && s >= spread / q as real
    ensures spread / s <= q as real
  {
    var r, w := spread / q as real, q as real;
    assert r * w == spread;
    MulNonNeg(s - r, w);
    assert (s - r) * w == s * w - r * w;
    var t := spread / s;
    assert t * s == spread;
    assert (w - t) * s == w * s - t * s;
    PosFactor(w - t, s);
  }

  lemma SymBounds(m: real, x: real, q: int, s: real)
    requires q >= 1 && s >= MIN_SCALE && s >= m / q as real && -m <= x <= m
    ensures -(q as real) <= x / s <= q as real
  {
    SpreadFits(m, q, s);
    DivLe(x, m, s);
    DivLe(-m, x, s);
    assert (-m / s) * s == -m && (m / s) * s == m;
    assert (-m / s + m / s) * s == 0.0;
    PosFactor(-m / s + m / s, s);
  }

  lemma AsymBounds(lo: real, hi: real, x: real, q: int, s: real)
    requires q >= 1 && s >= MIN_SCALE && s >= (hi - lo) / q as real && lo <= x <= hi
    ensures -0.5 <= x / s + (-Round(lo / s)) as real <= q as real + 0.5
  {
    hide Round;
    var n := Round(lo / s);
    SpreadFits(hi - lo, q, s);
    DivLe(lo, x, s);
    assert (x / s) * s == x && (lo / s) * s == lo;
    assert ((x - lo) / s - (x / s - lo / s)) * s == 0.0;
    DivLe(x - lo, hi - lo, s);
    SameQuotient(x, lo, s);
  }

  lemma SameQuotient(x: real, lo: real, s: real)
    requires s > 0.0
    ensures (x - lo) / s == x / s - lo / s
  {
    assert ((x - lo) / s) * s == x - lo && (x / s) * s == x && (lo / s) * s == lo;
    var d := (x - lo) / s - (x / s - lo / s);
    assert d * s == 0.0;
    PosFactor(d, s);
    PosFactor(-d, s);
  }

  /** No input lies more than half a step outside the grid, so clamping costs at most what rounding does. */
  lemma PositionBounds(row: seq<real>, sym: bool, bits: nat, i: nat)
    requires Supported(sym, bits) && i < |row|
    ensures (QMin(sym, bits) as real) - 0.5 <= Position(row, sym, bits, row[i]) <= QMax(sym, bits) as real + 0.5
  {
    hide Least, Greatest, Pow2, Round;
    QMaxPositive(sym, bits);
    var s, q, x := Scale(row, sym, bits), QMax(sym, bits), row[i];
    var lo, hi := Least(row), Greatest(row);
    assert lo <= x <= hi;
    if sym {
      SymBounds(Max(Abs(lo), Abs(hi)), x, q, s);
    } else {
      AsymBounds(lo, hi, x, q, s);
    }
  }

  lemma ClampNear(n: int, u: real, lo: int, hi: int)
    requires lo <= hi && u - 0.5 <= n as real <= u + 0.5 && lo as real - 0.5 <= u <= hi as real + 0.5
    ensures lo <= Clamp(n, lo, hi) <= hi && u - 0.5 <= Clamp(n, lo, hi) as real <= u + 0.5
  {
  }

  /** Dequantising is off by the distance on the grid times the scale. */
  lemma OffGrid(row: seq<real>, sym: bool, bits: nat, x: real, q: int)
    requires row != [] && Supported(sym, bits)
    ensures Dequantise(row, sym, bits, q) - x == (q as real - Position(row, sym, bits, x)) * Scale(row, sym, bits)
  {
    hide Scale, ZeroPoint;
    var s, z := Scale(row, sym, bits), ZeroPoint(row, sym, bits) as real;
    BackToInput(q as real, z, x, s);
  }

  /** How far a level is from the input on the grid. */
  ghost function Distance(row: seq<real>, sym: bool, bits: nat, x: real, q: int): (d: real)
    requires row != [] && Supported(sym, bits)
    ensures d >= 0.0
  {
    Abs(q as real - Position(row, sym, bits, x))
  }

  lemma ErrorIsDistance(row: seq<real>, sym: bool, bits: nat, x: real, q: int)
    requires row != [] && Supported(sym, bits)
    ensures Abs(Dequantise(row, sym, bits, q) - x) == Distance(row, sym, bits, x, q) * Scale(row, sym, bits)
  {
    hide Scale, Position, Dequantise;
    OffGrid(row, sym, bits, x, q);
    AbsTimes(q as real - Position(row, sym, bits, x), Scale(row, sym, bits));
  }

  lemma BackToInput(q: real, z: real, x: real, s: real)
    requires s > 0.0
    ensures (q - z) * s - x == (q - (x / s + z)) * s
  {
    var t := x / s;
    assert t * s == x;
    assert (q - (t + z)) * s == (q - z) * s - t * s;
  }

  /** Every quantised value is in range and comes back within half a step of its input. */
  lemma ErrorBound(row: seq<real>, sym: bool, bits: nat, i: nat)
    requires Supported(sym, bits) && i < |row|
    ensures QMin(sym, bits) <= Quantise(row, sym, bits, row[i]) <= QMax(sym, bits)
    ensures Abs(Dequantise(row, sym, bits, Quantise(row, sym, bits, row[i])) - row[i]) <= Scale(row, sym, bits) / 2.0
  {
    var x := row[i];
    hide Scale, Dequantise, Distance, Abs, QMin, QMax, Quantise;
    LevelNear(row, sym, bits, i);
    NearIsClose(row, sym, bits, x, Quantise(row, sym, bits, x));
  }

  lemma NearIsClose(row: seq<real>, sym: bool, bits: nat, x: real, q: int)
    requires row != [] && Supported(sym, bits) && Distance(row, sym, bits, x, q) <= 0.5
    ensures Abs(Dequantise(row, sym, bits, q) - x) <= Scale(row, sym, bits) / 2.0
  {
    hide Scale, Dequantise, Distance, Abs;
    ErrorIsDistance(row, sym, bits, x, q);
    HalfStep(Distance(row, sym, bits, x, q), Scale(row, sym, bits));
  }

  lemma LevelNear(row: seq<real>, sym: bool, bits: nat, i: nat)
    requires Supported(sym, bits) && i < |row|
    ensures QMin(sym, bits) <= Quantise(row, sym, bits, row[i]) <= QMax(sym, bits)
    ensures Distance(row, sym, bits, row[i], Quantise(row, sym, bits, row[i])) <= 0.5
  {
    hide Scale, Position, Quantise, QMin, QMax, Clamp, Round;
    QMaxPositive(sym, bits);
    var u := Position(row, sym, bits, row[i]);
    QuantiseRounds(row, sym, bits, row[i]);
    PositionBounds(row, sym, bits, i);
    ClampNear(Round(u), u, QMin(sym, bits), QMax(sym, bits));
  }

  lemma QuantiseRounds(row: seq<real>, sym: bool, bits: nat, x: real)
    requires row != [] && Supported(sym, bits)
    ensures Quantise(row, sym, bits, x) == Clamp(Round(Position(row, sym, bits, x)), QMin(sym, bits), QMax(sym, bits))
  {
  }

  lemma HalfStep(d: real, s: real)
    requires s > 0.0 && d <= 0.5
    ensures d * s <= s / 2.0
  {
    MulNonNeg(0.5 - d, s);
    assert (0.5 - d) * s == 0.5 * s - d * s;
  }

  // ------------------------------------------------------------------ nothing closer is in range

  lemma NearestInRange(u: real, lo: int, hi: int, k: int)
    requires lo <= k <= hi
    ensures Abs(Clamp(Round(u), lo, hi) as real - u) <= Abs(k as real - u)
  {
    var n := Round(u);
    if k < n { assert k as real <= n as real - 1.0; }
    if k > n { assert k as real >= n as real + 1.0; }
  }

  lemma LessTimes(a: real, b: real, s: real)
    requires s > 0.0 && a <= b
    ensures a * s <= b * s
  {
    MulNonNeg(b - a, s);
    assert (b - a) * s == b * s - a * s;
  }

  lemma AbsTimes(a: real, s: real)
    requires s > 0.0
    ensures Abs(a * s) == Abs(a) * s
  {
    MulNonNeg(Abs(a), s);
    assert a >= 0.0 ==> Abs(a) * s == a * s;
    assert a < 0.0 ==> Abs(a) * s == -(a * s);
  }

  /** The quantised value is the best one: no integer in range dequantises closer to the input. */
  lemma BestInRange(row: seq<real>, sym: bool, bits: nat, x: real, k: int)
    requires row != [] && Supported(sym, bits) && QMin(sym, bits) <= k <= QMax(sym, bits)
    ensures Abs(Dequantise(row, sym, bits, Quantise(row, sym, bits, x)) - x) <= Abs(Dequantise(row, sym, bits, k) - x)
  {
    hide Scale, Position, Dequantise, Quantise, QMin, QMax, Clamp, Round, Abs;
    var q := Quantise(row, sym, bits, x);
    QuantiseRounds(row, sym, bits, x);
    NearestInRange(Position(row, sym, bits, x), QMin(sym, bits), QMax(sym, bits), k);
    ErrorIsDistance(row, sym, bits, x, q);
    ErrorIsDistance(row, sym, bits, x, k);
    LessTimes(Distance(row, sym, bits, x, q), Distance(row, sym, bits, x, k), Scale(row, sym, bits));
  }

  // ------------------------------------------------------------------ the scale is the finest that fits

  /** Under scale `s` the row spans no more than the grid: its magnitudes do, or its differences when asymmetric. */
  ghost predicate Spans(row: seq<real>, sym: bool, bits: nat, s: real)
    requires Supported(sym, bits)
  {
    var reach := s * QMax(sym, bits) as real;
    if sym then forall i :: 0 <= i < |row| ==> -reach <= row[i] <= reach
    else forall i, j :: 0 <= i < |row| && 0 <= j < |row| ==> row[i] - row[j] <= reach
  }

  /** A row spans no more than the grid exactly when its spread does not. */
  lemma SpansIff(row: seq<real>, sym: bool, bits: nat, s: real)
    requires row != [] && Supported(sym, bits)
    ensures Spans(row, sym, bits, s) <==> Spread(row, sym) <= s * QMax(sym, bits) as real
  {
    hide QMax, Spread;
    SpreadBounds(row, s * QMax(sym, bits) as real);
  }

  lemma SpreadBounds(row: seq<real>, reach: real)
    requires row != []
    ensures Spread(row, true) <= reach <==> forall i :: 0 <= i < |row| ==> -reach <= row[i] <= reach
    ensures Spread(row, false) <= reach <==>
            forall i, j :: 0 <= i < |row| && 0 <= j < |row| ==> row[i] - row[j] <= reach
  {
    hide Least, Greatest;
    var lo, hi := Least(row), Greatest(row);
    var i :| 0 <= i < |row| && lo == row[i];
    var j :| 0 <= j < |row| && hi == row[j];
    assert lo <= row[j] && row[i] <= hi;
  }

  lemma ScaleFromSpread(row: seq<real>, sym: bool, bits: nat)
    requires row != [] && Supported(sym, bits)
    ensures QMax(sym, bits) > 0
    ensures Scale(row, sym, bits) == Max(Spread(row, sym) / QMax(sym, bits) as real, MIN_SCALE)
  {
    QMaxPositive(sym, bits);
  }

  lemma QuotientLe(d: real, q: real, s: real)
    requires q > 0.0
    ensures d / q <= s <==> d <= s * q
  {
    var r := d / q;
    assert r * q == d;
    if r <= s { MulNonNeg(s - r, q); assert (s - r) * q == s * q - r * q; }
    if d <= s * q { assert (s - r) * q == s * q - r * q; PosFactor(s - r, q); }
  }

  /** The scale is the least one of at least `MIN_SCALE` under which the row fits the grid. */
  lemma ScaleIsLeast(row: seq<real>, sym: bool, bits: nat, s: real)
    requires row != [] && Supported(sym, bits) && s >= MIN_SCALE
    ensures Spans(row, sym, bits, Scale(row, sym, bits))
    ensures Spans(row, sym, bits, s) <==> Scale(row, sym, bits) <= s
  {
    hide Scale, Spread, Spans, QMax;
    ScaleFromSpread(row, sym, bits);
    var d, q := Spread(row, sym), QMax(sym, bits) as real;
    SpansIff(row, sym, bits, Scale(row, sym, bits));
    SpansIff(row, sym, bits, s);
    QuotientLe(d, q, s);
    QuotientLe(d, q, Scale(row, sym, bits));
  }

  /** No input comes back further off than half a step of any scale that fits the row. */
  lemma ErrorByExtremes(row: seq<real>, sym: bool, bits: nat, i: nat, s: real)
    requires Supported(sym, bits) && i < |row| && s >= MIN_SCALE && Spans(row, sym, bits, s)
    ensures Abs(Dequantise(row, sym, bits, Quantise(row, sym, bits, row[i])) - row[i]) <= s / 2.0
  {
    hide Scale, Spans, Dequantise, Quantise, Abs, QMin, QMax;
    ScaleIsLeast(row, sym, bits, s);
    ErrorBound(row, sym, bits, i);
  }

  /** A row that is not flat uses the whole grid: its extremes lie exactly that many steps apart. */
  lemma WholeGridUsed(row: seq<real>, sym: bool, bits: nat)
    requires row != [] && Supported(sym, bits) && Spread(row, sym) > MIN_SCALE * QMax(sym, bits) as real
    ensures Spread(row, sym) / Scale(row, sym, bits) == QMax(sym, bits) as real
  {
    hide Scale, Spread, QMax;
    ScaleFromSpread(row, sym, bits);
    var d, q := Spread(row, sym), QMax(sym, bits) as real;
    QuotientLe(d, q, MIN_SCALE);
    var s := d / q;
    assert Scale(row, sym, bits) == s > 0.0;
    assert s * q == d;
    assert d / s * s == d;
    assert (d / s - q) * s == 0.0;
    PosFactor(d / s - q, s);
    PosFactor(q - d / s, s);
  }

  lemma RoundWhole(n: int)
    ensures Round(n as real) == n
  {
  }

  /** Symmetric: an input of the largest magnitude becomes the largest level, or its negative. */
  lemma LargestLevel(row: seq<real>, bits: nat, i: nat)
    requires Supported(true, bits) && i < |row| && Abs(row[i]) == Spread(row, true)
    requires Spread(row, true) > MIN_SCALE * QMax(true, bits) as real
    ensures Quantise(row, true, bits, row[i]) == if row[i] < 0.0 then -QMax(true, bits) else QMax(true, bits)
  {
    hide Scale, Spread, Pow2;
    var s, q := Scale(row, true, bits), QMax(true, bits);
    QMaxPositive(true, bits);
    WholeGridUsed(row, true, bits);
    NegQuotient(row[i], s);
    RoundWhole(q);
    RoundWhole(-q);
  }

  lemma NegQuotient(x: real, s: real)
    requires s > 0.0
    ensures -x / s == -(x / s)
  {
    assert -x / s * s == -x && x / s * s == x;
    assert (-x / s + x / s) * s == 0.0;
    PosFactor(-x / s + x / s, s);
    PosFactor(-(-x / s + x / s), s);
  }

  /** Rounding a number less its own rounding gives zero, ties included. */
  lemma RoundRest(x: real)
    ensures Round(x + (-Round(x)) as real) == 0
  {
  }

  /** Asymmetric: the least input becomes level zero and the greatest lies the whole grid above it. */
  lemma GridFromTheLeast(row: seq<real>, bits: nat)
    requires row != [] && Supported(false, bits) && Spread(row, false) > MIN_SCALE * QMax(false, bits) as real
    ensures Quantise(row, false, bits, Least(row)) == 0
    ensures Position(row, false, bits, Greatest(row)) - Position(row, false, bits, Least(row)) ==
            QMax(false, bits) as real
    ensures QMax(false, bits) - 1 <= Quantise(row, false, bits, Greatest(row)) <= QMax(false, bits)
  {
    hide Scale, Pow2, Round, Least, Greatest;
    var s, q := Scale(row, false, bits), QMax(false, bits);
    QMaxPositive(false, bits);
    WholeGridUsed(row, false, bits);
    SameQuotient(Greatest(row), Least(row), s);
    RoundRest(Least(row) / s);
  }

  /** The levels are all the integers of that many bits: two's complement when symmetric, unsigned otherwise. */
  lemma LevelsFillTheBits(sym: bool, bits: nat)
    requires Supported(sym, bits)
    ensures QMax(sym, bits) - QMin(sym, bits) + 1 == Pow2(bits)
    ensures if sym then QMin(sym, bits) + QMax(sym, bits) == -1 else QMin(sym, bits) == 0
  {
    assert Pow2(bits) == 2 * Pow2(bits - 1);
  }

  // ------------------------------------------------------------------ storage

  predicate FitsByte(sym: bool, q: int) { if sym then -128 <= q <= 127 else 0 <= q <= 255 }

  /** The cast to one byte keeps every level of the range exactly when there are at most eight bits. */
  lemma ByteIff(sym: bool, bits: nat)
    requires Supported(sym, bits)
    ensures (forall q :: QMin(sym, bits) <= q <= QMax(sym, bits) ==> FitsByte(sym, q)) <==> bits <= 8
  {
    assert Pow2(7) == 128 && Pow2(8) == 256;
    if bits < 8 { Pow2Mono(bits, 8); if bits - 1 < 7 { Pow2Mono(bits - 1, 7); } }
    if bits > 8 {
      Pow2Mono(8, bits);
      Pow2Mono(7, bits - 1);
      assert !FitsByte(sym, QMax(sym, bits));
      QMaxPositive(sym, bits);
    }
  }

  const I32: int := 0x8000_0000

  /** The zero point fits the 32-bit integer it is stored in exactly when the smallest input is in this window. */
  lemma ZeroPointFitsIff(row: seq<real>, bits: nat)
    requires row != [] && Supported(false, bits)
    ensures var u := Least(row) / Scale(row, false, bits);
            -I32 <= ZeroPoint(row, false, bits) < I32 <==> -(I32 as real) + 0.5 < u <= I32 as real + 0.5
  {
    var u := Least(row) / Scale(row, false, bits);
    var n := Round(u);
    assert n <= I32 <==> u <= I32 as real + 0.5 by {
      if n <= I32 { assert n as real <= I32 as real; }
      if n > I32 { assert n as real >= I32 as real + 1.0; }
    }
    assert n > -I32 <==> u > -(I32 as real) + 0.5 by {
      if n > -I32 { assert n as real >= -(I32 as real) + 1.0; }
      if n <= -I32 { assert n as real <= -(I32 as real); }
    }
  }

  /** A constant row of 50000 has no spread, so its zero point is minus five billion. */
  lemma ZeroPointOverflows()
    ensures ZeroPoint([50000.0], false, 8) == -5000000000
  {
    assert Pow2(8) == 256;
    assert Least([50000.0]) == 50000.0 && Greatest([50000.0]) == 50000.0;
    assert Scale([50000.0], false, 8) == MIN_SCALE;
    assert 50000.0 / MIN_SCALE == 5000000000.0;
  }
}
