/**
 The hyper-connection mapping of one token in its plain form, and what it does to the streams without its formula: it
 is linear, an entry (a, b) of the mixing matrix feeds stream a into stream b, and with the columns the Sinkhorn
 section leaves no stream grows beyond the streams it is mixed from.
 */
module StreamMix {
  import opened Sums
  import opened Sinkhorn

  const WARP := 32

  datatype Config = Config(hc: nat, hidden: nat, nOut: nat, nThr: nat, tileN: nat, splitK: nat) {
    /** Whole warps, and nothing divides by zero. */
    predicate Ok() { nThr > 0 && nThr % WARP == 0 && tileN > 0 && splitK > 0 }

    function PerSplit(): nat requires Ok() { hidden / splitK }
    function Iters(): nat requires Ok() { PerSplit() / nThr }
    function Warps(): nat { nThr / WARP }
    function Tiles(): nat requires Ok() { nOut / tileN }
  }

  datatype Inputs = Inputs(comb: (int, int) -> real, residual: (int, int) -> real, post: int -> real, x: int -> real,
                           weight: (int, int, int) -> real)

  // ------------------------------------------------------------------ the plain form

  ghost function CombTerms(inp: Inputs, j: int, h: int): int -> real { k => inp.comb(k, j) * inp.residual(k, h) }

  /** The post-mapping of one hidden position: the layer output spread over the streams plus the mixed streams. */
  ghost function NewResidual(c: Config, inp: Inputs, j: int, h: int): real {
    inp.post(j) * inp.x(h) + Sum(c.hc, CombTerms(inp, j, h))
  }

  ghost function DotTerms(c: Config, inp: Inputs, n: int, h: int): int -> real {
    j => inp.weight(n, j, h) * NewResidual(c, inp, j, h)
  }

  ghost function SqrTerms(c: Config, inp: Inputs, h: int): int -> real {
    j => NewResidual(c, inp, j, h) * NewResidual(c, inp, j, h)
  }

  ghost function Dot(c: Config, inp: Inputs, n: int): int -> real { h => Sum(c.hc, DotTerms(c, inp, n, h)) }

  ghost function Sqr(c: Config, inp: Inputs): int -> real { h => Sum(c.hc, SqrTerms(c, inp, h)) }

  // ------------------------------------------------------------------ linearity

  ghost function Blend1(a: real, f: int -> real, b: real, g: int -> real): int -> real { i => a * f(i) + b * g(i) }

  ghost function Blend2(a: real, f: (int, int) -> real, b: real, g: (int, int) -> real): (int, int) -> real {
    (i, j) => a * f(i, j) + b * g(i, j)
  }

  /** Linear in what goes in, the streams and the layer's output together. */
  lemma LinearInStreams(c: Config, one: Inputs, two: Inputs, a: real, b: real, j: int, h: int)
    requires one.comb == two.comb && one.post == two.post
    ensures var both := one.(residual := Blend2(a, one.residual, b, two.residual), x := Blend1(a, one.x, b, two.x));
            NewResidual(c, both, j, h) == a * NewResidual(c, one, j, h) + b * NewResidual(c, two, j, h)
  {
    hide Sum;
    var both := one.(residual := Blend2(a, one.residual, b, two.residual), x := Blend1(a, one.x, b, two.x));
    forall k ensures CombTerms(both, j, h)(k) == a * CombTerms(one, j, h)(k) + b * CombTerms(two, j, h)(k) {
      Distribute(one.comb(k, j), a, one.residual(k, h), b, two.residual(k, h));
    }
    SumBlend(c.hc, CombTerms(both, j, h), a, CombTerms(one, j, h), b, CombTerms(two, j, h));
    Distribute(one.post(j), a, one.x(h), b, two.x(h));
    Gather(a, one.post(j) * one.x(h), Sum(c.hc, CombTerms(one, j, h)));
    Gather(b, two.post(j) * two.x(h), Sum(c.hc, CombTerms(two, j, h)));
  }

  /** Linear in the mix, the matrix and the spread of the layer's output together. */
  lemma LinearInMix(c: Config, one: Inputs, two: Inputs, a: real, b: real, j: int, h: int)
    requires one.residual == two.residual && one.x == two.x
    ensures var both := one.(comb := Blend2(a, one.comb, b, two.comb), post := Blend1(a, one.post, b, two.post));
            NewResidual(c, both, j, h) == a * NewResidual(c, one, j, h) + b * NewResidual(c, two, j, h)
  {
    hide Sum;
    var both := one.(comb := Blend2(a, one.comb, b, two.comb), post := Blend1(a, one.post, b, two.post));
    forall k ensures CombTerms(both, j, h)(k) == a * CombTerms(one, j, h)(k) + b * CombTerms(two, j, h)(k) {
      Distribute(one.residual(k, h), a, one.comb(k, j), b, two.comb(k, j));
    }
    SumBlend(c.hc, CombTerms(both, j, h), a, CombTerms(one, j, h), b, CombTerms(two, j, h));
    Distribute(one.x(h), a, one.post(j), b, two.post(j));
    Gather(a, one.post(j) * one.x(h), Sum(c.hc, CombTerms(one, j, h)));
    Gather(b, two.post(j) * two.x(h), Sum(c.hc, CombTerms(two, j, h)));
  }

  lemma Distribute(m: real, a: real, x: real, b: real, y: real)
    ensures m * (a * x + b * y) == a * (m * x) + b * (m * y)
    ensures (a * x + b * y) * m == a * (x * m) + b * (y * m)
  {
    assert m * (a * x) == a * (m * x) && m * (b * y) == b * (m * y);
    assert (a * x) * m == a * (x * m) && (b * y) * m == b * (y * m);
  }

  lemma Gather(a: real, x: real, y: real)
    ensures a * (x + y) == a * x + a * y
  {
  }

  lemma SumBlend(n: nat, h: int -> real, a: real, f: int -> real, b: real, g: int -> real)
    requires forall i :: h(i) == a * f(i) + b * g(i)
    ensures Sum(n, h) == a * Sum(n, f) + b * Sum(n, g)
  {
    hide Sum;
    var af: int -> real := i => a * f(i);
    var bg: int -> real := i => b * g(i);
    SumEq(n, h, i => af(i) + bg(i));
    SumAdd(n, af, bg);
    SumScale(n, a, f);
    SumScale(n, b, g);
  }

  // ------------------------------------------------------------------ routes

  /** The matrix feeds stream `a` into stream `b` and nothing else anywhere. */
  ghost predicate Route(c: Config, comb: (int, int) -> real, a: int, b: int) {
    forall k, j :: 0 <= k < c.hc && 0 <= j < c.hc ==> comb(k, j) == if k == a && j == b then 1.0 else 0.0
  }

  /** Stream `k` goes to stream `to(k)`, whole. */
  ghost predicate Moves(c: Config, comb: (int, int) -> real, to: int -> int) {
    && (forall k :: 0 <= k < c.hc ==> 0 <= to(k) < c.hc)
    && (forall k, m :: 0 <= k < m < c.hc ==> to(k) != to(m))
    && forall k, j :: 0 <= k < c.hc && 0 <= j < c.hc ==> comb(k, j) == if j == to(k) then 1.0 else 0.0
  }

  lemma RouteFeeds(c: Config, inp: Inputs, a: nat, b: nat, j: nat, h: int)
    requires Route(c, inp.comb, a, b) && a < c.hc && b < c.hc && j < c.hc
    ensures NewResidual(c, inp, j, h) == inp.post(j) * inp.x(h) + if j == b then inp.residual(a, h) else 0.0
  {
    SumOnly(c.hc, CombTerms(inp, j, h), a);
  }

  lemma MovedWhole(c: Config, inp: Inputs, to: int -> int, k: nat, h: int)
    requires Moves(c, inp.comb, to) && k < c.hc
    ensures NewResidual(c, inp, to(k), h) == inp.post(to(k)) * inp.x(h) + inp.residual(k, h)
  {
    forall m | 0 <= m < c.hc && m != k ensures CombTerms(inp, to(k), h)(m) == 0.0 {
      assert to(m) != to(k);
    }
    SumOnly(c.hc, CombTerms(inp, to(k), h), k);
  }

  /** The streams as the matrix routes them, whatever single entry it has. */
  ghost predicate Routed(c: Config, inp: Inputs, out: array2<real>)
    requires out.Length0 == c.hc && out.Length1 == c.hidden
    reads out
  {
    && (forall a, b, j, h :: 0 <= a < c.hc && 0 <= b < c.hc && 0 <= j < c.hc && 0 <= h < c.hidden &&
                             Route(c, inp.comb, a, b) ==>
          out[j, h] == inp.post(j) * inp.x(h) + if j == b then inp.residual(a, h) else 0.0)
  }

  lemma RoutesStreams(c: Config, inp: Inputs, out: array2<real>)
    requires out.Length0 == c.hc && out.Length1 == c.hidden
    requires forall j, p :: 0 <= j < c.hc && 0 <= p < c.hidden ==> out[j, p] == NewResidual(c, inp, j, p)
    ensures Routed(c, inp, out)
  {
    hide NewResidual, Route;
    forall a, b, j, h | 0 <= a < c.hc && 0 <= b < c.hc && 0 <= j < c.hc && 0 <= h < c.hidden && Route(c, inp.comb, a, b)
      ensures out[j, h] == inp.post(j) * inp.x(h) + if j == b then inp.residual(a, h) else 0.0
    {
      RouteFeeds(c, inp, a, b, j, h);
    }
  }

  // ------------------------------------------------------------------ mixing with balanced columns

  /** Mixed by columns that sum to at most one, a stream stays within the bound of the streams it is mixed from. */
  lemma MixBounded(c: Config, inp: Inputs, eps: real, bound: real, j: nat, h: int)
    requires Positive(c.hc, inp.comb) && ColumnsBounded(c.hc, inp.comb, eps) && j < c.hc
    requires forall k :: 0 <= k < c.hc ==> -bound <= inp.residual(k, h) <= bound
    ensures -bound <= NewResidual(c, inp, j, h) - inp.post(j) * inp.x(h) <= bound
  {
    hide Sum;
    var col, terms := ColTerms(inp.comb, j), CombTerms(inp, j, h);
    forall k | 0 <= k < c.hc ensures -bound * col(k) <= terms(k) <= bound * col(k) {
      Within(inp.comb(k, j), inp.residual(k, h), bound);
    }
    SumWithin(c.hc, terms, col, bound);
    assert -bound <= inp.residual(0, h) <= bound;
    assert 0.0 < ColSum(c.hc, inp.comb, j) <= 1.0;
    Shrinks(Sum(c.hc, terms), Sum(c.hc, col), bound);
    assert NewResidual(c, inp, j, h) == inp.post(j) * inp.x(h) + Sum(c.hc, terms);
  }

  lemma SumWithin(n: nat, f: int -> real, g: int -> real, bound: real)
    requires forall k :: 0 <= k < n ==> -bound * g(k) <= f(k) <= bound * g(k)
    ensures -bound * Sum(n, g) <= Sum(n, f) <= bound * Sum(n, g)
  {
    hide Sum;
    SumLe(n, f, k => bound * g(k));
    SumLe(n, k => -bound * g(k), f);
    SumScale(n, bound, g);
    SumScale(n, -bound, g);
  }

  lemma Within(w: real, r: real, bound: real)
    requires w >= 0.0 && -bound <= r <= bound
    ensures -bound * w <= w * r <= bound * w
  {
    assert w * (bound - r) >= 0.0 && w * (r + bound) >= 0.0;
    assert w * (bound - r) == w * bound - w * r && w * (r + bound) == w * r + w * bound;
  }

  lemma Shrinks(m: real, s: real, bound: real)
    requires 0.0 <= s <= 1.0 && bound >= 0.0 && -bound * s <= m <= bound * s
    ensures -bound <= m <= bound
  {
    assert bound * (1.0 - s) >= 0.0;
    assert bound * (1.0 - s) == bound - bound * s && -bound * s == -(bound * s);
  }

  /** Streams that agree are mixed into themselves, scaled by the sum of the column that feeds the stream. */
  lemma AgreeingStreams(c: Config, inp: Inputs, v: real, j: nat, h: int)
    requires forall k :: 0 <= k < c.hc ==> inp.residual(k, h) == v
    ensures NewResidual(c, inp, j, h) == inp.post(j) * inp.x(h) + v * ColSum(c.hc, inp.comb, j)
  {
    hide Sum;
    var col := ColTerms(inp.comb, j);
    SumEq(c.hc, CombTerms(inp, j, h), k => v * col(k));
    SumScale(c.hc, v, col);
  }

  /**
   The two kernels together: mixed with what the Sinkhorn section makes of any matrix, no stream outgrows the streams
   before it, and with no epsilon streams that agree come out unchanged, the layer's own output aside.
   */
  lemma BalancedMix(c: Config, inp: Inputs, exp: real -> real, shift: int -> real, m: Matrix, eps: real, times: int,
                    bound: real, j: nat, h: int)
    requires eps >= 0.0 && (forall x :: exp(x) > 0.0) && j < c.hc
    requires inp.comb == Balanced(c.hc, exp, shift, m, eps, times)
    requires forall k :: 0 <= k < c.hc ==> -bound <= inp.residual(k, h) <= bound
    ensures -bound <= NewResidual(c, inp, j, h) - inp.post(j) * inp.x(h) <= bound
    ensures eps == 0.0 && (forall k :: 0 <= k < c.hc ==> inp.residual(k, h) == bound) ==>
              NewResidual(c, inp, j, h) == inp.post(j) * inp.x(h) + bound
  {
    hide Balanced, NewResidual, Positive, ColSum;
    BalancedBounded(c.hc, exp, shift, m, eps, times);
    MixBounded(c, inp, eps, bound, j, h);
    if eps == 0.0 && forall k :: 0 <= k < c.hc ==> inp.residual(k, h) == bound {
      AgreeingStreams(c, inp, bound, j, h);
    }
  }

  // ------------------------------------------------------------------ the projections and the norm

  /** The weights read one position of one stream into one column. */
  ghost predicate Reads(c: Config, weight: (int, int, int) -> real, col: int, stream: int, at: int) {
    forall n, j, h :: 0 <= n < c.nOut && 0 <= j < c.hc && 0 <= h < c.hidden ==>
      weight(n, j, h) == if n == col && j == stream && h == at then 1.0 else 0.0
  }

  lemma ReadsPosition(c: Config, inp: Inputs, col: nat, stream: nat, at: nat, n: nat)
    requires Reads(c, inp.weight, col, stream, at) && stream < c.hc && at < c.hidden && n < c.nOut
    ensures Sum(c.hidden, Dot(c, inp, n)) == if n == col then NewResidual(c, inp, stream, at) else 0.0
  {
    hide Sum, NewResidual;
    forall h | 0 <= h < c.hidden
      ensures Dot(c, inp, n)(h) == if n == col && h == at then NewResidual(c, inp, stream, at) else 0.0
    {
      SumOnly(c.hc, DotTerms(c, inp, n, h), stream);
    }
    SumOnly(c.hidden, Dot(c, inp, n), at);
  }

  /** Columns as single weights read them off the streams, scaled. */
  ghost predicate Projected(c: Config, inp: Inputs, mixes: seq<real>, out: array2<real>, scale: real)
    requires |mixes| == c.nOut && out.Length0 == c.hc && out.Length1 == c.hidden
    reads out
  {
    forall col, j, h, n :: 0 <= col < c.nOut && 0 <= j < c.hc && 0 <= h < c.hidden && 0 <= n < c.nOut &&
                           Reads(c, inp.weight, col, j, h) ==>
      mixes[n] == if n == col then out[j, h] * scale else 0.0
  }

  lemma ProjectsStreams(c: Config, inp: Inputs, mixes: seq<real>, out: array2<real>, scale: real)
    requires |mixes| == c.nOut && out.Length0 == c.hc && out.Length1 == c.hidden
    requires forall j, p :: 0 <= j < c.hc && 0 <= p < c.hidden ==> out[j, p] == NewResidual(c, inp, j, p)
    requires forall n :: 0 <= n < c.nOut ==> mixes[n] == Sum(c.hidden, Dot(c, inp, n)) * scale
    ensures Projected(c, inp, mixes, out, scale)
  {
    hide NewResidual, Dot, Sum, Reads;
    forall col, j, h, n | 0 <= col < c.nOut && 0 <= j < c.hc && 0 <= h < c.hidden && 0 <= n < c.nOut &&
                          Reads(c, inp.weight, col, j, h)
      ensures mixes[n] == if n == col then out[j, h] * scale else 0.0
    {
      ReadsPosition(c, inp, col, j, h, n);
    }
  }

  lemma LinearInWeights(c: Config, one: Inputs, two: Inputs, weight: (int, int, int) -> real, a: real, b: real, n: int)
    requires two == one.(weight := two.weight)
    requires forall j, h :: weight(n, j, h) == a * one.weight(n, j, h) + b * two.weight(n, j, h)
    ensures Sum(c.hidden, Dot(c, one.(weight := weight), n)) ==
            a * Sum(c.hidden, Dot(c, one, n)) + b * Sum(c.hidden, Dot(c, two, n))
  {
    hide Sum;
    var both := one.(weight := weight);
    forall h ensures Dot(c, both, n)(h) == a * Dot(c, one, n)(h) + b * Dot(c, two, n)(h) {
      forall j ensures DotTerms(c, both, n, h)(j) == a * DotTerms(c, one, n, h)(j) + b * DotTerms(c, two, n, h)(j) {
        SameStreams(c, one, two, both, j, h);
        Distribute(NewResidual(c, one, j, h), a, one.weight(n, j, h), b, two.weight(n, j, h));
      }
      SumBlend(c.hc, DotTerms(c, both, n, h), a, DotTerms(c, one, n, h), b, DotTerms(c, two, n, h));
    }
    SumBlend(c.hidden, Dot(c, both, n), a, Dot(c, one, n), b, Dot(c, two, n));
  }

  lemma SameStreams(c: Config, one: Inputs, two: Inputs, both: Inputs, j: int, h: int)
    requires two == one.(weight := two.weight) && both == one.(weight := both.weight)
    ensures NewResidual(c, one, j, h) == NewResidual(c, two, j, h) == NewResidual(c, both, j, h)
  {
    hide Sum;
    SumEq(c.hc, CombTerms(one, j, h), CombTerms(two, j, h));
    SumEq(c.hc, CombTerms(one, j, h), CombTerms(both, j, h));
  }

  /** The mean square over all streams and positions. */
  ghost function MeanSquare(c: Config, inp: Inputs): real
    requires c.hc * c.hidden > 0
  {
    Sum(c.hidden, Sqr(c, inp)) / (c.hc * c.hidden) as real
  }

  /** The mean square of streams that hold one value everywhere is its square. */
  lemma MeanOfConstant(c: Config, inp: Inputs, v: real)
    requires c.hc * c.hidden > 0
    requires forall j, h :: 0 <= j < c.hc && 0 <= h < c.hidden ==> NewResidual(c, inp, j, h) == v
    ensures MeanSquare(c, inp) == v * v
  {
    hide Sum, NewResidual;
    forall h | 0 <= h < c.hidden ensures Sqr(c, inp)(h) == c.hc as real * (v * v) {
      SumConst(c.hc, SqrTerms(c, inp, h), v * v);
    }
    SumConst(c.hidden, Sqr(c, inp), c.hc as real * (v * v));
    var n := (c.hc * c.hidden) as real;
    assert Sum(c.hidden, Sqr(c, inp)) == c.hidden as real * (c.hc as real * (v * v)) == n * (v * v);
    assert n * (v * v) / n == v * v;
  }

  /** The norm only sees sizes: twice the streams, four times the mean square. */
  lemma MeanOfScaled(c: Config, inp: Inputs, other: Inputs, a: real)
    requires c.hc * c.hidden > 0
    requires forall j, h :: 0 <= j < c.hc && 0 <= h < c.hidden ==>
               NewResidual(c, other, j, h) == a * NewResidual(c, inp, j, h)
    ensures MeanSquare(c, other) == (a * a) * MeanSquare(c, inp)
  {
    hide Sum, NewResidual;
    forall h | 0 <= h < c.hidden ensures Sqr(c, other)(h) == (a * a) * Sqr(c, inp)(h) {
      forall j | 0 <= j < c.hc ensures SqrTerms(c, other, h)(j) == (a * a) * SqrTerms(c, inp, h)(j) {
        SquareOfScaled(a, NewResidual(c, inp, j, h));
      }
      SumEq(c.hc, SqrTerms(c, other, h), j => (a * a) * SqrTerms(c, inp, h)(j));
      SumScale(c.hc, a * a, SqrTerms(c, inp, h));
    }
    SumEq(c.hidden, Sqr(c, other), h => (a * a) * Sqr(c, inp)(h));
    SumScale(c.hidden, a * a, Sqr(c, inp));
    ScaleQuotient(a * a, Sum(c.hidden, Sqr(c, inp)), (c.hc * c.hidden) as real);
  }

  lemma SquareOfScaled(a: real, x: real)
    ensures (a * x) * (a * x) == (a * a) * (x * x)
  {
    assert (a * x) * (a * x) == a * (x * (a * x)) == a * (a * (x * x));
  }

  lemma ScaleQuotient(k: real, s: real, d: real)
    requires d != 0.0
    ensures (k * s) / d == k * (s / d)
  {
    assert (k * (s / d)) * d == k * s;
  }
}
