/**
 The fused hyper-connection kernel: each (tile, split) block lets every thread accumulate a strided share of
 its slice of the hidden dimension, reduces within warps, then across warps through shared memory. A second
 kernel adds the splits up again. The plain form is one dot product and one squared norm over the residual
 that the unfused post-mapping kernel writes. Arithmetic is over the reals; one token is modelled.
 */
module SplitKernel {
  import opened Arithmetic
  import opened Sums
  import opened StreamMix

  // ------------------------------------------------------------------ how a block adds up

  ghost function ThreadTerms(c: Config, f: int -> real, ks: int, tid: int): int -> real
    requires c.Ok()
  {
    var start := ks * c.PerSplit(); var n := c.nThr;
    it => f(start + (it * n + tid))
  }

  ghost function ThreadSum(c: Config, f: int -> real, ks: int, tid: int): real
    requires c.Ok()
  {
    Sum(c.Iters(), ThreadTerms(c, f, ks, tid))
  }

  ghost function LaneTerms(c: Config, f: int -> real, ks: int, w: int): int -> real
    requires c.Ok()
  {
    lane => assert c.Ok(); ThreadSum(c, f, ks, w * WARP + lane)
  }

  ghost function WarpTerms(c: Config, f: int -> real, ks: int): int -> real
    requires c.Ok()
  {
    w => Sum(WARP, LaneTerms(c, f, ks, w))
  }

  ghost function SliceTerms(c: Config, f: int -> real, ks: int): int -> real
    requires c.Ok()
  {
    var start := ks * c.PerSplit();
    d => f(start + d)
  }

  ghost function SliceSum(c: Config, f: int -> real, ks: int): real
    requires c.Ok()
  {
    Sum(c.Iters() * c.nThr, SliceTerms(c, f, ks))
  }

  ghost function Strided(g: int -> real, n: int, its: nat): int -> real { tid => Sum(its, Stride(g, n, tid)) }

  ghost function Stride(g: int -> real, n: int, tid: int): int -> real { it => g(it * n + tid) }

  /** Strided shares of a range add up to the range. */
  lemma StridesCover(g: int -> real, n: nat, its: nat)
    ensures Sum(n, Strided(g, n, its)) == Sum(its * n, g)
  {
    hide Sum;
    var cell: (int, int) -> real := (tid, it) => g(it * n + tid);
    forall tid ensures Strided(g, n, its)(tid) == Sum(its, it => cell(tid, it)) {
      SumEq(its, Stride(g, n, tid), it => cell(tid, it));
    }
    SumEq(n, Strided(g, n, its), tid => Sum(its, it => cell(tid, it)));
    SumSwap(n, its, cell);
    SumProduct(its, n, g);
    forall it ensures Sum(n, tid => cell(tid, it)) == Sum(n, j => g(it * n + j)) {
      SumEq(n, tid => cell(tid, it), j => g(it * n + j));
    }
    SumEq(its, it => Sum(n, tid => cell(tid, it)), i => Sum(n, j => g(i * n + j)));
  }

  ghost function ThreadSums(c: Config, f: int -> real, ks: int): int -> real
    requires c.Ok()
  {
    tid => assert c.Ok(); ThreadSum(c, f, ks, tid)
  }

  lemma WarpsCoverThreads(c: Config, f: int -> real, ks: int)
    requires c.Ok()
    ensures Sum(c.Warps(), WarpTerms(c, f, ks)) == Sum(c.nThr, ThreadSums(c, f, ks))
  {
    hide Sum, ThreadSum;
    var byThread := ThreadSums(c, f, ks);
    assert c.Warps() * WARP == c.nThr;
    SumProduct(c.Warps(), WARP, byThread);
    forall w ensures WarpTerms(c, f, ks)(w) == Sum(WARP, lane => byThread(w * WARP + lane)) {
      SumEq(WARP, LaneTerms(c, f, ks, w), lane => byThread(w * WARP + lane));
    }
    SumEq(c.Warps(), WarpTerms(c, f, ks), w => Sum(WARP, lane => byThread(w * WARP + lane)));
  }

  /** Lanes, then warps, then strides: however it is associated, the block has added its slice once. */
  lemma BlockSumIsSlice(c: Config, f: int -> real, ks: int)
    requires c.Ok()
    ensures Sum(c.Warps(), WarpTerms(c, f, ks)) == SliceSum(c, f, ks)
  {
    hide Sum;
    var g := SliceTerms(c, f, ks);
    WarpsCoverThreads(c, f, ks);
    StridesCover(g, c.nThr, c.Iters());
    forall tid ensures ThreadSums(c, f, ks)(tid) == Strided(g, c.nThr, c.Iters())(tid) {
      SumEq(c.Iters(), ThreadTerms(c, f, ks, tid), Stride(g, c.nThr, tid));
    }
    SumEq(c.nThr, ThreadSums(c, f, ks), Strided(g, c.nThr, c.Iters()));
  }

  // ------------------------------------------------------------------ one thread

  /** Thread `tid` of split `ks` meets position `h` within its first `its` strides. */
  predicate Meets(c: Config, ks: int, h: int, tid: int, its: int)
    requires c.Ok()
  {
    var d := h - ks * c.PerSplit();
    0 <= d && d / c.nThr < its && d % c.nThr == tid
  }

  lemma InBounds(c: Config, ks: nat, it: nat, tid: nat)
    requires c.Ok() && ks < c.splitK && it < c.Iters() && tid < c.nThr
    ensures it * c.nThr + tid < c.Iters() * c.nThr <= c.PerSplit()
    ensures 0 <= ks * c.PerSplit() + (it * c.nThr + tid) < c.hidden
  {
    InGrid(it, tid, c.Iters(), c.nThr);
    DivBounds(c.PerSplit(), c.nThr);
    InGrid(ks, it * c.nThr + tid, c.splitK, c.PerSplit());
    DivBounds(c.hidden, c.splitK);
  }

  /** One more stride of thread `tid` reaches exactly its next position. */
  lemma MeetsNext(c: Config, ks: nat, it: nat, tid: nat, h: int)
    requires c.Ok() && tid < c.nThr
    ensures Meets(c, ks, h, tid, it + 1) <==> Meets(c, ks, h, tid, it) || h == ks * c.PerSplit() + (it * c.nThr + tid)
  {
    var d := h - ks * c.PerSplit();
    DivMod(c.nThr, it, tid);
    if d >= 0 {
      assert d == d / c.nThr * c.nThr + d % c.nThr;
    }
  }

  method NewResidualAt(c: Config, inp: Inputs, h: int) returns (newR: array<real>)
    ensures fresh(newR) && newR.Length == c.hc
    ensures forall j :: 0 <= j < c.hc ==> newR[j] == NewResidual(c, inp, j, h)
  {
    newR := new real[c.hc];
    for j := 0 to c.hc
      invariant forall i :: 0 <= i < j ==> newR[i] == NewResidual(c, inp, i, h)
    {
      newR[j] := inp.post(j) * inp.x(h);
      for k := 0 to c.hc
        invariant forall i :: 0 <= i < j ==> newR[i] == NewResidual(c, inp, i, h)
        invariant newR[j] == inp.post(j) * inp.x(h) + Sum(k, CombTerms(inp, j, h))
      {
        newR[j] := newR[j] + inp.comb(k, j) * inp.residual(k, h);
      }
    }
  }

  /** Only the first tile stores the new residual and adds up its squares. */
  method StoreResidual(c: Config, inp: Inputs, h: nat, newR: array<real>, out: array2<real>, sqr: real)
    returns (s: real)
    requires newR.Length == c.hc && out.Length0 == c.hc && out.Length1 == c.hidden && h < c.hidden
    requires forall j :: 0 <= j < c.hc ==> newR[j] == NewResidual(c, inp, j, h)
    modifies out
    ensures forall j, p :: 0 <= j < c.hc && 0 <= p < c.hidden ==>
              out[j, p] == if p == h then NewResidual(c, inp, j, p) else old(out[j, p])
    ensures s == sqr + Sqr(c, inp)(h)
  {
    s := sqr;
    for j := 0 to c.hc
      invariant s == sqr + Sum(j, SqrTerms(c, inp, h))
      invariant forall i, p :: 0 <= i < c.hc && 0 <= p < c.hidden ==>
                  out[i, p] == if p == h && i < j then NewResidual(c, inp, i, p) else old(out[i, p])
    {
      out[j, h] := newR[j];
      s := s + newR[j] * newR[j];
    }
  }

  /** The tile's fused multiply-adds at one position. */
  method Accumulate(c: Config, inp: Inputs, nt: int, h: int, newR: array<real>, acc: array<real>)
    requires newR.Length == c.hc && acc.Length == c.tileN && newR != acc
    requires forall j :: 0 <= j < c.hc ==> newR[j] == NewResidual(c, inp, j, h)
    modifies acc
    ensures forall n :: 0 <= n < c.tileN ==> acc[n] == old(acc[n]) + Dot(c, inp, nt * c.tileN + n)(h)
  {
    hide Dot, NewResidual;
    for n := 0 to c.tileN
      invariant forall i :: 0 <= i < n ==> acc[i] == old(acc[i]) + Dot(c, inp, nt * c.tileN + i)(h)
      invariant forall i :: n <= i < c.tileN ==> acc[i] == old(acc[i])
    {
      var v := FusedAdd(c, inp, nt * c.tileN + n, h, newR, acc[n]);
      acc[n] := v;
    }
  }

  /** One column's multiply-adds over the streams. */
  method FusedAdd(c: Config, inp: Inputs, n: int, h: int, newR: array<real>, start: real) returns (v: real)
    requires newR.Length == c.hc && forall j :: 0 <= j < c.hc ==> newR[j] == NewResidual(c, inp, j, h)
    ensures v == start + Dot(c, inp, n)(h)
  {
    v := start;
    for j := 0 to c.hc
      invariant v == start + Sum(j, DotTerms(c, inp, n, h))
    {
      v := v + inp.weight(n, j, h) * newR[j];
    }
  }

  /** One thread: its strided share of the slice, for every column of the tile. */
  method Thread(c: Config, inp: Inputs, nt: nat, ks: nat, tid: nat, out: array2<real>)
    returns (acc: array<real>, sqr: real)
    requires c.Ok() && ks < c.splitK && tid < c.nThr && out.Length0 == c.hc && out.Length1 == c.hidden
    modifies out
    ensures fresh(acc) && acc.Length == c.tileN
    ensures forall n :: 0 <= n < c.tileN ==> acc[n] == ThreadSum(c, Dot(c, inp, nt * c.tileN + n), ks, tid)
    ensures sqr == if nt == 0 then ThreadSum(c, Sqr(c, inp), ks, tid) else 0.0
    ensures forall j, p :: 0 <= j < c.hc && 0 <= p < c.hidden ==>
              out[j, p] == if nt == 0 && Meets(c, ks, p, tid, c.Iters()) then NewResidual(c, inp, j, p) else
                  old(out[j, p])
  {
    hide Meets, NewResidual, Dot, Sqr;
    acc := new real[c.tileN](_ => 0.0);
    sqr := 0.0;
    forall p ensures !Meets(c, ks, p, tid, 0) { MeetsNone(c, ks, p, tid); }
    for it := 0 to c.Iters()
      invariant forall n :: 0 <= n < c.tileN ==>
                acc[n] == Sum(it, ThreadTerms(c, Dot(c, inp, nt * c.tileN + n), ks, tid))
      invariant sqr == if nt == 0 then Sum(it, ThreadTerms(c, Sqr(c, inp), ks, tid)) else 0.0
      invariant forall j, p :: 0 <= j < c.hc && 0 <= p < c.hidden ==>
                  out[j, p] == if nt == 0 && Meets(c, ks, p, tid, it) then NewResidual(c, inp, j, p) else old(out[j, p])
    {
      InBounds(c, ks, it, tid);
      var h := ks * c.PerSplit() + (it * c.nThr + tid);
      forall p ensures Meets(c, ks, p, tid, it + 1) <==> Meets(c, ks, p, tid, it) || p == h {
        MeetsNext(c, ks, it, tid, p);
      }
      var newR := NewResidualAt(c, inp, h);
      if nt == 0 {
        sqr := StoreResidual(c, inp, h, newR, out, sqr);
      }
      Accumulate(c, inp, nt, h, newR, acc);
    }
  }

  lemma MeetsNone(c: Config, ks: nat, h: int, tid: nat)
    requires c.Ok()
    ensures !Meets(c, ks, h, tid, 0)
  {
  }

  // ------------------------------------------------------------------ one block

  /** Position `h` belongs to one of the first `tids` threads of split `ks`. */
  predicate Owned(c: Config, ks: int, h: int, tids: int)
    requires c.Ok()
  {
    var d := h - ks * c.PerSplit();
    0 <= d && d / c.nThr < c.Iters() && d % c.nThr < tids
  }

  lemma OwnedNext(c: Config, ks: int, h: int, tid: nat)
    requires c.Ok()
    ensures Owned(c, ks, h, tid + 1) <==> Owned(c, ks, h, tid) || Meets(c, ks, h, tid, c.Iters())
  {
  }

  lemma OwnedNone(c: Config, ks: int, h: int)
    requires c.Ok()
    ensures !Owned(c, ks, h, 0)
  {
  }

  /** One warp: its lanes run, their accumulators are summed across the warp and lane 0 stores the sums. */
  method Warp(c: Config, inp: Inputs, nt: nat, ks: nat, w: nat, sWarp: array2<real>, out: array2<real>)
    requires c.Ok() && ks < c.splitK && w < c.Warps()
    requires out.Length0 == c.hc && out.Length1 == c.hidden && sWarp.Length0 == c.Warps() &&
             sWarp.Length1 == c.tileN + 1
    requires sWarp != out
    modifies sWarp, out
    ensures forall v, n :: 0 <= v < c.Warps() && 0 <= n <= c.tileN && v != w ==> sWarp[v, n] == old(sWarp[v, n])
    ensures forall n :: 0 <= n < c.tileN ==> sWarp[w, n] == WarpTerms(c, Dot(c, inp, nt * c.tileN + n), ks)(w)
    ensures nt == 0 ==> sWarp[w, c.tileN] == WarpTerms(c, Sqr(c, inp), ks)(w)
    ensures forall j, p :: 0 <= j < c.hc && 0 <= p < c.hidden ==>
              out[j, p] == if nt == 0 && !Owned(c, ks, p, w * WARP) && Owned(c, ks, p, w * WARP + WARP)
                           then NewResidual(c, inp, j, p) else old(out[j, p])
  {
    hide Owned, NewResidual, Dot, Sqr, Sum, LaneTerms;
    var total, sqr := RunLanes(c, inp, nt, ks, w, out);
    StoreWarp(c, nt, w, total, sqr, sWarp);
  }

  /** The warp reduction: every lane runs and adds its accumulators to the warp's. */
  method RunLanes(c: Config, inp: Inputs, nt: nat, ks: nat, w: nat, out: array2<real>)
    returns (total: array<real>, sqr: real)
    requires c.Ok() && ks < c.splitK && w < c.Warps() && out.Length0 == c.hc && out.Length1 == c.hidden
    modifies out
    ensures fresh(total) && total.Length == c.tileN
    ensures forall n :: 0 <= n < c.tileN ==> total[n] == Sum(WARP, LaneTerms(c, Dot(c, inp, nt * c.tileN + n), ks, w))
    ensures nt == 0 ==> sqr == Sum(WARP, LaneTerms(c, Sqr(c, inp), ks, w))
    ensures forall j, p :: 0 <= j < c.hc && 0 <= p < c.hidden ==>
              out[j, p] == if nt == 0 && !Owned(c, ks, p, w * WARP) && Owned(c, ks, p, w * WARP + WARP)
                           then NewResidual(c, inp, j, p) else old(out[j, p])
  {
    hide Owned, NewResidual, Dot, Sqr, LaneTerms;
    total := new real[c.tileN](_ => 0.0);
    sqr := 0.0;
    for lane := 0 to WARP
      invariant forall n :: 0 <= n < c.tileN ==>
                total[n] == Sum(lane, LaneTerms(c, Dot(c, inp, nt * c.tileN + n), ks, w))
      invariant nt == 0 ==> sqr == Sum(lane, LaneTerms(c, Sqr(c, inp), ks, w))
      invariant forall j, p :: 0 <= j < c.hc && 0 <= p < c.hidden ==>
                  out[j, p] == if nt == 0 && !Owned(c, ks, p, w * WARP) && Owned(c, ks, p, w * WARP + lane)
                               then NewResidual(c, inp, j, p) else old(out[j, p])
    {
      forall p {:trigger Owned(c, ks, p, w * WARP)}
        ensures Owned(c, ks, p, w * WARP) ==> Owned(c, ks, p, w * WARP + lane)
        ensures Owned(c, ks, p, w * WARP + lane) ==> Owned(c, ks, p, w * WARP + (lane + 1))
      {
        OwnedMono(c, ks, p, w * WARP, w * WARP + lane);
        OwnedMono(c, ks, p, w * WARP + lane, w * WARP + (lane + 1));
      }
      var s := RunLane(c, inp, nt, ks, w, lane, total, out);
      sqr := sqr + s;
    }
  }

  method RunLane(c: Config, inp: Inputs, nt: nat, ks: nat, w: nat, lane: nat, total: array<real>, out: array2<real>)
    returns (s: real)
    requires c.Ok() && ks < c.splitK && w < c.Warps() && lane < WARP
    requires total.Length == c.tileN && out.Length0 == c.hc && out.Length1 == c.hidden
    modifies total, out
    ensures forall n :: 0 <= n < c.tileN ==>
            total[n] == old(total[n]) + LaneTerms(c, Dot(c, inp, nt * c.tileN + n), ks, w)(lane)
    ensures nt == 0 ==> s == LaneTerms(c, Sqr(c, inp), ks, w)(lane)
    ensures forall j, p :: 0 <= j < c.hc && 0 <= p < c.hidden ==>
              out[j, p] == if nt == 0 && !Owned(c, ks, p, w * WARP + lane) && Owned(c, ks, p, w * WARP + (lane + 1))
                           then NewResidual(c, inp, j, p) else old(out[j, p])
  {
    hide Owned, Meets, NewResidual, Dot, Sqr, ThreadSum;
    var tid := w * WARP + lane;
    forall p {:trigger Owned(c, ks, p, tid)} ensures Owned(c, ks, p, tid + 1) <==>
        Owned(c, ks, p, tid) || Meets(c, ks, p, tid, c.Iters()) {
      OwnedNext(c, ks, p, tid);
    }
    forall p {:trigger Meets(c, ks, p, tid, c.Iters())} ensures Meets(c, ks, p, tid, c.Iters()) ==>
        !Owned(c, ks, p, tid) {
      MeetsOnce(c, ks, p, tid);
    }
    var acc;
    acc, s := Thread(c, inp, nt, ks, tid, out);
    AddInto(total, acc);
  }

  method StoreWarp(c: Config, nt: nat, w: nat, total: array<real>, sqr: real, sWarp: array2<real>)
    requires total.Length == c.tileN && w < c.Warps() && sWarp.Length0 == c.Warps() && sWarp.Length1 == c.tileN + 1
    modifies sWarp
    ensures forall v, n :: 0 <= v < c.Warps() && 0 <= n <= c.tileN && v != w ==> sWarp[v, n] == old(sWarp[v, n])
    ensures forall n :: 0 <= n < c.tileN ==> sWarp[w, n] == total[n]
    ensures nt == 0 ==> sWarp[w, c.tileN] == sqr
  {
    for n := 0 to c.tileN
      invariant forall v, m :: 0 <= v < c.Warps() && 0 <= m <= c.tileN && v != w ==> sWarp[v, m] == old(sWarp[v, m])
      invariant forall m :: 0 <= m < n ==> sWarp[w, m] == total[m]
    {
      sWarp[w, n] := total[n];
    }
    if nt == 0 {
      sWarp[w, c.tileN] := sqr;
    }
  }

  lemma OwnedMono(c: Config, ks: int, h: int, a: int, b: int)
    requires c.Ok() && a <= b
    ensures Owned(c, ks, h, a) ==> Owned(c, ks, h, b)
  {
  }

  lemma MeetsOnce(c: Config, ks: int, h: int, tid: int)
    requires c.Ok()
    ensures Meets(c, ks, h, tid, c.Iters()) ==> !Owned(c, ks, h, tid)
  {
  }

  method AddInto(total: array<real>, acc: array<real>)
    requires total.Length == acc.Length && total != acc
    modifies total
    ensures forall n :: 0 <= n < total.Length ==> total[n] == old(total[n]) + acc[n]
  {
    for n := 0 to total.Length
      invariant forall i :: 0 <= i < total.Length ==> total[i] == old(total[i]) + if i < n then acc[i] else 0.0
    {
      total[n] := total[n] + acc[n];
    }
  }

  /** Column `n` is one of the tile's, and warp 0 has a lane for it. */
  predicate InTile(c: Config, nt: int, n: int) {
    nt * c.tileN <= n < nt * c.tileN + c.tileN && n < nt * c.tileN + WARP
  }

  /** One block: all its warps, then warp 0 adds the warps' sums and stores the outputs. */
  method Block(c: Config, inp: Inputs, nt: nat, ks: nat, yp: array2<real>, rp: array<real>, out: array2<real>)
    requires c.Ok() && ks < c.splitK && nt < c.Tiles()
    requires out.Length0 == c.hc && out.Length1 == c.hidden && yp.Length0 == c.splitK && yp.Length1 == c.nOut &&
             rp.Length == c.splitK
    requires yp != out
    modifies yp, rp, out
    ensures forall s, n :: 0 <= s < c.splitK && 0 <= n < c.nOut ==>
              yp[s, n] == if s == ks && InTile(c, nt, n) then SliceSum(c, Dot(c, inp, n), ks) else old(yp[s, n])
    ensures forall s :: 0 <= s < c.splitK ==>
              rp[s] == if s == ks && nt == 0 then SliceSum(c, Sqr(c, inp), ks) else old(rp[s])
    ensures forall j, p :: 0 <= j < c.hc && 0 <= p < c.hidden ==>
              out[j, p] == if nt == 0 && Owned(c, ks, p, c.nThr) then NewResidual(c, inp, j, p) else old(out[j, p])
  {
    hide Owned, NewResidual, Dot, Sqr, SliceSum, Sum, WarpTerms, InTile;
    var sWarp := new real[c.Warps(), c.tileN + 1];
    RunWarps(c, inp, nt, ks, sWarp, out);
    StoreColumns(c, inp, nt, ks, sWarp, yp);
    if nt == 0 {
      var v2 := CrossWarp(c, Sqr(c, inp), ks, c.tileN, sWarp);
      rp[ks] := v2;
    }
  }

  /** The lanes of warp 0 that have a column of the tile store it. */
  method StoreColumns(c: Config, inp: Inputs, nt: nat, ks: nat, sWarp: array2<real>, yp: array2<real>)
    requires c.Ok() && ks < c.splitK && nt < c.Tiles() && sWarp != yp
    requires yp.Length0 == c.splitK && yp.Length1 == c.nOut && sWarp.Length0 == c.Warps() &&
             sWarp.Length1 == c.tileN + 1
    requires forall v, n :: 0 <= v < c.Warps() && 0 <= n < c.tileN ==>
             sWarp[v, n] == WarpTerms(c, Dot(c, inp, nt * c.tileN + n), ks)(v)
    modifies yp
    ensures forall s, n :: 0 <= s < c.splitK && 0 <= n < c.nOut ==>
              yp[s, n] == if s == ks && InTile(c, nt, n) then SliceSum(c, Dot(c, inp, n), ks) else old(yp[s, n])
  {
    hide Dot, SliceSum, WarpTerms;
    TileInBounds(c, nt);
    for lane := 0 to WARP
      invariant forall s, n :: 0 <= s < c.splitK && 0 <= n < c.nOut ==>
                  yp[s, n] == if s == ks && nt * c.tileN <= n < nt * c.tileN + c.tileN && n < nt * c.tileN + lane
                              then SliceSum(c, Dot(c, inp, n), ks) else old(yp[s, n])
    {
      if lane < c.tileN {
        var v := CrossWarp(c, Dot(c, inp, nt * c.tileN + lane), ks, lane, sWarp);
        yp[ks, nt * c.tileN + lane] := v;
      }
    }
  }

  lemma TileInBounds(c: Config, nt: nat)
    requires c.Ok() && nt < c.Tiles()
    ensures nt * c.tileN + c.tileN <= c.nOut
  {
    MulMono(nt + 1, c.Tiles(), c.tileN);
    assert (nt + 1) * c.tileN == nt * c.tileN + c.tileN;
  }

  lemma InTileIff(c: Config, nt: nat, n: nat)
    requires c.Ok()
    ensures InTile(c, nt, n) <==> n / c.tileN == nt && n % c.tileN < WARP
  {
    if nt * c.tileN <= n < nt * c.tileN + c.tileN {
      DivMod(c.tileN, nt, n - nt * c.tileN);
    }
    assert n == n / c.tileN * c.tileN + n % c.tileN;
  }

  method RunWarps(c: Config, inp: Inputs, nt: nat, ks: nat, sWarp: array2<real>, out: array2<real>)
    requires c.Ok() && ks < c.splitK && out.Length0 == c.hc && out.Length1 == c.hidden
    requires sWarp.Length0 == c.Warps() && sWarp.Length1 == c.tileN + 1 && sWarp != out
    modifies sWarp, out
    ensures forall v, n :: 0 <= v < c.Warps() && 0 <= n < c.tileN ==>
            sWarp[v, n] == WarpTerms(c, Dot(c, inp, nt * c.tileN + n), ks)(v)
    ensures nt == 0 ==> forall v :: 0 <= v < c.Warps() ==> sWarp[v, c.tileN] == WarpTerms(c, Sqr(c, inp), ks)(v)
    ensures forall j, p :: 0 <= j < c.hc && 0 <= p < c.hidden ==>
              out[j, p] == if nt == 0 && Owned(c, ks, p, c.nThr) then NewResidual(c, inp, j, p) else old(out[j, p])
  {
    hide Owned, NewResidual, Dot, Sqr, WarpTerms;
    forall p ensures !Owned(c, ks, p, 0) { OwnedNone(c, ks, p); }
    for w := 0 to c.Warps()
      invariant forall v, n :: 0 <= v < w && 0 <= n < c.tileN ==>
                sWarp[v, n] == WarpTerms(c, Dot(c, inp, nt * c.tileN + n), ks)(v)
      invariant nt == 0 ==> forall v :: 0 <= v < w ==> sWarp[v, c.tileN] == WarpTerms(c, Sqr(c, inp), ks)(v)
      invariant forall j, p :: 0 <= j < c.hc && 0 <= p < c.hidden ==>
                  out[j, p] == if nt == 0 && Owned(c, ks, p, w * WARP) then NewResidual(c, inp, j, p) else
                      old(out[j, p])
    {
      forall p {:trigger Owned(c, ks, p, w * WARP)} ensures Owned(c, ks, p, w * WARP) ==>
          Owned(c, ks, p, w * WARP + WARP) {
        OwnedMono(c, ks, p, w * WARP, w * WARP + WARP);
      }
      Warp(c, inp, nt, ks, w, sWarp, out);
    }
    assert c.Warps() * WARP == c.nThr;
  }

  method CrossWarp(c: Config, ghost f: int -> real, ks: nat, col: nat, sWarp: array2<real>) returns (v: real)
    requires c.Ok() && sWarp.Length0 == c.Warps() && col < sWarp.Length1
    requires forall w :: 0 <= w < c.Warps() ==> sWarp[w, col] == WarpTerms(c, f, ks)(w)
    ensures v == SliceSum(c, f, ks)
  {
    v := 0.0;
    for w := 0 to c.Warps()
      invariant v == Sum(w, WarpTerms(c, f, ks))
    {
      v := v + sWarp[w, col];
    }
    BlockSumIsSlice(c, f, ks);
  }

  // ------------------------------------------------------------------ the launch

  predicate ColumnDone(c: Config, n: nat, tiles: nat)
    requires c.Ok()
  {
    n / c.tileN < tiles && n % c.tileN < WARP
  }

  ghost predicate OwnedBySplits(c: Config, p: int, splits: nat)
    requires c.Ok()
  {
    exists s :: 0 <= s < splits && Owned(c, s, p, c.nThr)
  }

  /** The blocks of one split. */
  method Split(c: Config, inp: Inputs, ks: nat, yp: array2<real>, rp: array<real>, out: array2<real>)
    requires c.Ok() && ks < c.splitK
    requires out.Length0 == c.hc && out.Length1 == c.hidden && yp.Length0 == c.splitK && yp.Length1 == c.nOut &&
             rp.Length == c.splitK
    requires yp != out
    modifies yp, rp, out
    ensures forall s, n :: 0 <= s < c.splitK && 0 <= n < c.nOut ==>
              yp[s, n] == if s == ks && ColumnDone(c, n, c.Tiles()) then SliceSum(c, Dot(c, inp, n), ks) else
                  old(yp[s, n])
    ensures forall s :: 0 <= s < c.splitK ==>
              rp[s] == if s == ks && c.Tiles() > 0 then SliceSum(c, Sqr(c, inp), ks) else old(rp[s])
    ensures forall j, p :: 0 <= j < c.hc && 0 <= p < c.hidden ==>
              out[j, p] == if c.Tiles() > 0 && Owned(c, ks, p, c.nThr) then NewResidual(c, inp, j, p) else
                  old(out[j, p])
  {
    hide Owned, NewResidual, Dot, Sqr, SliceSum, InTile, ColumnDone;
    NoColumns(c);
    for nt := 0 to c.Tiles()
      invariant forall s, n :: 0 <= s < c.splitK && 0 <= n < c.nOut ==>
                  yp[s, n] == if s == ks && ColumnDone(c, n, nt) then SliceSum(c, Dot(c, inp, n), ks) else old(yp[s, n])
      invariant forall s :: 0 <= s < c.splitK ==>
                  rp[s] == if s == ks && nt > 0 then SliceSum(c, Sqr(c, inp), ks) else old(rp[s])
      invariant forall j, p :: 0 <= j < c.hc && 0 <= p < c.hidden ==>
                  out[j, p] == if nt > 0 && Owned(c, ks, p, c.nThr) then NewResidual(c, inp, j, p) else old(out[j, p])
    {
      ColumnsNext(c, nt);
      Block(c, inp, nt, ks, yp, rp, out);
    }
  }

  lemma NoColumns(c: Config)
    requires c.Ok()
    ensures forall n: nat :: !ColumnDone(c, n, 0)
  {
  }

  lemma ColumnsNext(c: Config, nt: nat)
    requires c.Ok()
    ensures forall n: nat {:trigger ColumnDone(c, n, nt)} :: ColumnDone(c, n, nt + 1) <==>
            ColumnDone(c, n, nt) || InTile(c, nt, n)
  {
    forall n: nat {:trigger ColumnDone(c, n, nt)} ensures ColumnDone(c, n, nt + 1) <==>
        ColumnDone(c, n, nt) || InTile(c, nt, n) {
      InTileIff(c, nt, n);
    }
  }

  /** The whole launch: every split's partial sums, and the new residual wherever some thread came by. */
  method FusedKernel(c: Config, inp: Inputs, yp: array2<real>, rp: array<real>, out: array2<real>)
    requires c.Ok()
    requires out.Length0 == c.hc && out.Length1 == c.hidden && yp.Length0 == c.splitK && yp.Length1 == c.nOut &&
             rp.Length == c.splitK
    requires yp != out
    modifies yp, rp, out
    ensures forall s, n :: 0 <= s < c.splitK && 0 <= n < c.nOut ==>
              yp[s, n] == if ColumnDone(c, n, c.Tiles()) then SliceSum(c, Dot(c, inp, n), s) else old(yp[s, n])
    ensures forall s :: 0 <= s < c.splitK ==> rp[s] == if c.Tiles() > 0 then SliceSum(c, Sqr(c, inp), s) else old(rp[s])
    ensures forall j, p :: 0 <= j < c.hc && 0 <= p < c.hidden ==>
              out[j, p] == if c.Tiles() > 0 && OwnedBySplits(c, p, c.splitK) then NewResidual(c, inp, j, p) else
                  old(out[j, p])
  {
    hide Owned, NewResidual, Dot, Sqr, SliceSum, ColumnDone, OwnedBySplits;
    forall p ensures !OwnedBySplits(c, p, 0) { NoSplits(c, p); }
    for ks := 0 to c.splitK
      invariant forall s, n :: 0 <= s < c.splitK && 0 <= n < c.nOut ==>
                  yp[s, n] == if s < ks && ColumnDone(c, n, c.Tiles()) then SliceSum(c, Dot(c, inp, n), s) else
                      old(yp[s, n])
      invariant forall s :: 0 <= s < c.splitK ==>
                  rp[s] == if s < ks && c.Tiles() > 0 then SliceSum(c, Sqr(c, inp), s) else old(rp[s])
      invariant forall j, p :: 0 <= j < c.hc && 0 <= p < c.hidden ==>
                  out[j, p] == if c.Tiles() > 0 && OwnedBySplits(c, p, ks) then NewResidual(c, inp, j, p) else
                      old(out[j, p])
    {
      forall p {:trigger OwnedBySplits(c, p, ks)}
        ensures OwnedBySplits(c, p, ks + 1) <==> OwnedBySplits(c, p, ks) || Owned(c, ks, p, c.nThr)
      {
        SplitsNext(c, p, ks);
      }
      Split(c, inp, ks, yp, rp, out);
    }
  }

  lemma NoSplits(c: Config, p: int)
    requires c.Ok()
    ensures !OwnedBySplits(c, p, 0)
  {
  }

  lemma SplitsNext(c: Config, p: int, ks: nat)
    requires c.Ok()
    ensures OwnedBySplits(c, p, ks + 1) <==> OwnedBySplits(c, p, ks) || Owned(c, ks, p, c.nThr)
  {
    hide Owned;
    if OwnedBySplits(c, p, ks) {
      var s :| 0 <= s < ks && Owned(c, s, p, c.nThr);
      assert 0 <= s < ks + 1 && Owned(c, s, p, c.nThr);
    }
  }

  // ------------------------------------------------------------------ when the splits add up

  ghost predicate Even(c: Config)
    requires c.Ok()
  {
    c.splitK * c.nThr > 0 && c.hidden % (c.splitK * c.nThr) == 0
  }

  lemma EvenSizes(c: Config)
    requires c.Ok()
    ensures c.splitK * c.nThr > 0
    ensures Even(c) <==> c.splitK * (c.Iters() * c.nThr) == c.hidden
    ensures Even(c) ==> c.Iters() * c.nThr == c.PerSplit()
  {
    var s, n := c.splitK, c.nThr;
    MulMono(1, s, n);
    if Even(c) {
      var q := c.hidden / (s * n);
      assert c.hidden == q * (s * n);
      EvenQuotients(q, s, n);
    }
    if s * (c.Iters() * n) == c.hidden {
      MulSwap(c.Iters(), s, n);
      MulDivides(c.Iters(), s * n);
    }
  }

  lemma EvenQuotients(q: nat, s: nat, n: nat)
    requires s > 0 && n > 0
    ensures q * (s * n) / s == q * n && q * n / n == q && q * (s * n) == s * (q * n)
  {
    assert q * (s * n) == (q * n) * s by { MulSwap(q, s, n); }
    DivMod(s, q * n, 0);
    DivMod(n, q, 0);
  }

  lemma MulSwap(q: nat, s: nat, n: nat)
    ensures q * (s * n) == (q * n) * s == s * (q * n)
  {
  }

  ghost function Slices(c: Config, f: int -> real): int -> real
    requires c.Ok()
  {
    ks => assert c.Ok(); SliceSum(c, f, ks)
  }

  /** Even sizes: the splits' sums are the plain sum over the hidden dimension. */
  lemma SplitsAddUp(c: Config, f: int -> real)
    requires c.Ok() && Even(c)
    ensures Sum(c.splitK, Slices(c, f)) == Sum(c.hidden, f)
  {
    hide Sum;
    EvenSizes(c);
    var m := c.PerSplit();
    SumProduct(c.splitK, m, f);
    forall ks ensures Slices(c, f)(ks) == Sum(m, j => f(ks * m + j)) {
      SumEq(m, SliceTerms(c, f, ks), j => f(ks * m + j));
    }
    SumEq(c.splitK, Slices(c, f), i => Sum(m, j => f(i * m + j)));
  }

  /** Even sizes: every position has an owner, so the whole residual is stored. */
  lemma EverythingOwned(c: Config, p: nat)
    requires c.Ok() && Even(c) && p < c.hidden
    ensures OwnedBySplits(c, p, c.splitK)
  {
    hide Even, Owned;
    EvenSizes(c);
    var s, d := SplitOf(p, c.PerSplit(), c.splitK);
    OwnedAt(c, s, d);
  }

  /** Position `p` of `k` slices of `m`: which slice, and where in it. */
  lemma SplitOf(p: nat, m: nat, k: nat) returns (s: nat, d: nat)
    requires p < k * m
    ensures s < k && d < m && p == s * m + d
  {
    s, d := p / m, p % m;
    DivBelow(p, m, k);
  }

  lemma OwnedAt(c: Config, s: nat, d: nat)
    requires c.Ok() && d < c.Iters() * c.nThr
    ensures Owned(c, s, s * c.PerSplit() + d, c.nThr)
  {
    DivBelow(d, c.nThr, c.Iters());
  }

  /** A layer output of ones kept in stream 0, unit weights and no mixing. */
  ghost function Ones(): Inputs {
    Inputs((k, j) => 0.0, (k, h) => 0.0, j => if j == 0 then 1.0 else 0.0, h => 1.0, (n, j, h) => 1.0)
  }

  lemma OnesResidual(c: Config, j: int, h: int)
    ensures NewResidual(c, Ones(), j, h) == if j == 0 then 1.0 else 0.0
  {
    SumZero(c.hc, CombTerms(Ones(), j, h));
  }

  lemma OnesDot(c: Config, n: int, h: int)
    requires c.hc > 0
    ensures Dot(c, Ones(), n)(h) == 1.0
  {
    hide NewResidual;
    var f := DotTerms(c, Ones(), n, h);
    forall j ensures f(j) == if j == 0 then 1.0 else 0.0 { OnesResidual(c, j, h); }
    SumSplit(1, c.hc - 1, f);
    SumZero(c.hc - 1, j => f(1 + j));
    assert Sum(1, f) == f(0);
  }

  lemma OnesSqr(c: Config, h: int)
    requires c.hc > 0
    ensures Sqr(c, Ones())(h) == 1.0
  {
    hide NewResidual;
    var f := SqrTerms(c, Ones(), h);
    forall j ensures f(j) == if j == 0 then 1.0 else 0.0 { OnesResidual(c, j, h); }
    SumSplit(1, c.hc - 1, f);
    SumZero(c.hc - 1, j => f(1 + j));
    assert Sum(1, f) == f(0);
  }

  lemma CoveredOnes(c: Config, f: int -> real)
    requires c.Ok() && forall h :: f(h) == 1.0
    ensures Sum(c.splitK, Slices(c, f)) == (c.splitK * (c.Iters() * c.nThr)) as real
    ensures Sum(c.hidden, f) == c.hidden as real
  {
    hide Sum;
    var m := c.Iters() * c.nThr;
    forall ks ensures Slices(c, f)(ks) == m as real { SumConst(m, SliceTerms(c, f, ks), 1.0); }
    SumConst(c.splitK, Slices(c, f), m as real);
    SumConst(c.hidden, f, 1.0);
    assert c.splitK as real * m as real == (c.splitK * m) as real;
  }

  /** An input on which it shows: with all ones, sizes that do not divide give another sum than the plain one. */
  lemma OnesComeShort(c: Config, n: int)
    requires c.Ok() && c.hc > 0 && !Even(c)
    ensures Sum(c.splitK, Slices(c, Dot(c, Ones(), n))) != c.hidden as real == Sum(c.hidden, Dot(c, Ones(), n))
  {
    var f := Dot(c, Ones(), n);
    forall h ensures f(h) == 1.0 { OnesDot(c, n, h); }
    CoveredOnes(c, f);
    EvenSizes(c);
  }

  /** The split sums are the plain dot product on every input exactly when splits and threads divide the hidden size. */
  lemma FusedIsPlainIff(c: Config, n: int)
    requires c.Ok() && c.hc > 0
    ensures (forall inp: Inputs :: Sum(c.splitK, Slices(c, Dot(c, inp, n))) == Sum(c.hidden, Dot(c, inp, n))) <==>
            Even(c)
  {
    if Even(c) {
      forall inp: Inputs ensures Sum(c.splitK, Slices(c, Dot(c, inp, n))) == Sum(c.hidden, Dot(c, inp, n)) {
        SplitsAddUp(c, Dot(c, inp, n));
      }
    } else {
      OnesComeShort(c, n);
    }
  }

  /** The same for the squared norm. */
  lemma FusedNormIff(c: Config)
    requires c.Ok() && c.hc > 0
    ensures (forall inp: Inputs :: Sum(c.splitK, Slices(c, Sqr(c, inp))) == Sum(c.hidden, Sqr(c, inp))) <==> Even(c)
  {
    if Even(c) {
      forall inp: Inputs ensures Sum(c.splitK, Slices(c, Sqr(c, inp))) == Sum(c.hidden, Sqr(c, inp)) {
        SplitsAddUp(c, Sqr(c, inp));
      }
    } else {
      var f := Sqr(c, Ones());
      forall h ensures f(h) == 1.0 { OnesSqr(c, h); }
      CoveredOnes(c, f);
      EvenSizes(c);
    }
  }

  /** The residual output is completely written exactly under the same condition; otherwise its last position is not. */
  lemma ResidualStoredIff(c: Config)
    requires c.Ok()
    ensures (forall p :: 0 <= p < c.hidden ==> OwnedBySplits(c, p, c.splitK)) <==> Even(c)
  {
    hide Owned;
    EvenSizes(c);
    if Even(c) {
      forall p | 0 <= p < c.hidden ensures OwnedBySplits(c, p, c.splitK) { EverythingOwned(c, p); }
    } else if OwnedBySplits(c, c.hidden - 1, c.splitK) {
      var s :| 0 <= s < c.splitK && Owned(c, s, c.hidden - 1, c.nThr);
      LastOwned(c, s);
    }
  }

  lemma LastOwned(c: Config, s: nat)
    requires c.Ok() && s < c.splitK && Owned(c, s, c.hidden - 1, c.nThr)
    ensures Even(c)
  {
    var m := c.PerSplit();
    var d := c.hidden - 1 - s * m;
    assert d == d / c.nThr * c.nThr + d % c.nThr;
    MulMono(d / c.nThr + 1, c.Iters(), c.nThr);
    assert (d / c.nThr + 1) * c.nThr == d / c.nThr * c.nThr + c.nThr;
    assert d < c.Iters() * c.nThr <= m;
    MulMono(s + 1, c.splitK, m);
    assert (s + 1) * m == s * m + m;
    assert c.splitK * m <= c.hidden;
    EvenSizes(c);
  }

  /** Every output column is written exactly when the tiles fill the columns and a warp has a lane for each. */
  lemma ColumnsDoneIff(c: Config)
    requires c.Ok()
    ensures (forall n: nat :: n < c.nOut ==> ColumnDone(c, n, c.Tiles())) <==>
            c.nOut == 0 || (c.nOut % c.tileN == 0 && c.tileN <= WARP)
  {
    assert c.nOut == c.Tiles() * c.tileN + c.nOut % c.tileN;
    if c.nOut > 0 {
      if c.nOut % c.tileN != 0 {
        TailNotDone(c);
      } else if c.tileN > WARP {
        DivMod(c.tileN, 0, WARP);
        assert !ColumnDone(c, WARP, c.Tiles());
        MulMono(1, c.Tiles(), c.tileN);
      } else {
        forall n: nat | n < c.nOut ensures ColumnDone(c, n, c.Tiles()) {
          assert n == n / c.tileN * c.tileN + n % c.tileN;
          MulMono(c.Tiles(), n / c.tileN, c.tileN);
        }
      }
    }
  }

  lemma TailNotDone(c: Config)
    requires c.Ok() && c.nOut % c.tileN != 0
    ensures c.nOut > 0 && !ColumnDone(c, c.nOut - 1, c.Tiles())
  {
    assert c.nOut == c.Tiles() * c.tileN + c.nOut % c.tileN;
    DivMod(c.tileN, c.Tiles(), c.nOut % c.tileN - 1);
  }

  // ------------------------------------------------------------------ the unfused post-mapping

  function Gcd(a: nat, b: nat): (g: nat)
    ensures a + b > 0 ==> g > 0 && a % g == 0 && b % g == 0
    decreases b
  {
    if b == 0 then a
    else
      var g := Gcd(b, a % b);
      DividesBack(a, b, g);
      g
  }

  lemma DividesBack(a: nat, b: nat, g: nat)
    requires b > 0 && g > 0 && b % g == 0 && a % b % g == 0
    ensures a % g == 0
  {
    var r := a % b;
    assert a == a / b * b + r;
    assert b == b / g * g;
    assert r == r / g * g;
    var k := a / b * (b / g) + r / g;
    assert a / b * (b / g * g) == a / b * (b / g) * g;
    assert a == k * g;
    DivMod(g, k, 0);
  }

  /** The unfused kernel walks the hidden dimension in blocks and writes the post-mapping at every position. */
  method PostKernel(c: Config, inp: Inputs, hBlk: nat, x: array2<real>)
    requires hBlk > 0 && x.Length0 == c.hc && x.Length1 == c.hidden
    modifies x
    ensures forall j, p :: 0 <= j < c.hc && 0 <= p < c.hidden ==> x[j, p] == NewResidual(c, inp, j, p)
    ensures Routed(c, inp, x)
  {
    hide Routed;
    var blk := Gcd(c.hidden, hBlk);
    var blocks := (c.hidden + blk - 1) / blk;
    CeilIsExact(c.hidden, blk);
    for i0 := 0 to blocks
      invariant forall j, p :: 0 <= j < c.hc && 0 <= p < i0 * blk && p < c.hidden ==>
                x[j, p] == NewResidual(c, inp, j, p)
    {
      MulMono(i0 + 1, blocks, blk);
      assert (i0 + 1) * blk == i0 * blk + blk;
      PostBlock(c, inp, i0 * blk, blk, x);
    }
    RoutesStreams(c, inp, x);
  }

  lemma CeilIsExact(h: nat, blk: nat)
    requires blk > 0 && h % blk == 0
    ensures (h + blk - 1) / blk * blk == h
  {
    assert h == h / blk * blk;
    DivMod(blk, h / blk, blk - 1);
  }

  method PostBlock(c: Config, inp: Inputs, start: nat, blk: nat, x: array2<real>)
    requires x.Length0 == c.hc && x.Length1 == c.hidden && start + blk <= c.hidden
    modifies x
    ensures forall j, p :: 0 <= j < c.hc && 0 <= p < c.hidden ==>
              x[j, p] == if start <= p < start + blk then NewResidual(c, inp, j, p) else old(x[j, p])
  {
    for j := 0 to c.hc
      invariant forall i, p :: 0 <= i < c.hc && 0 <= p < c.hidden ==>
                  x[i, p] == if i < j && start <= p < start + blk then NewResidual(c, inp, i, p) else old(x[i, p])
    {
      for i1 := 0 to blk
        invariant forall i, p :: 0 <= i < c.hc && 0 <= p < c.hidden ==>
                    x[i, p] == if (i < j && start <= p < start + blk) || (i == j && start <= p < start + i1)
                               then NewResidual(c, inp, i, p) else old(x[i, p])
      {
        var v := PostMap(c, inp, j, start + i1);
        x[j, start + i1] := v;
      }
    }
  }

  method PostMap(c: Config, inp: Inputs, j: nat, h: nat) returns (v: real)
    ensures v == NewResidual(c, inp, j, h)
  {
    v := inp.post(j) * inp.x(h);
    for k := 0 to c.hc
      invariant v == inp.post(j) * inp.x(h) + Sum(k, CombTerms(inp, j, h))
    {
      v := v + inp.comb(k, j) * inp.residual(k, h);
    }
  }

  // ------------------------------------------------------------------ adding the splits up again

  /** The next kernel's first step: the splits summed, the row scaled by the root mean square. */
  method SumSplits(c: Config, yp: array2<real>, rp: array<real>, rmsEps: real, rsqrt: real -> real,
                   ghost cols: int -> (int -> real), ghost norms: int -> real) returns (mixes: array<real>)
    requires c.hc * c.hidden > 0 && yp.Length0 == c.splitK && yp.Length1 == c.nOut && rp.Length == c.splitK
    requires forall s, n :: 0 <= s < c.splitK && 0 <= n < c.nOut ==> yp[s, n] == cols(n)(s)
    requires forall s :: 0 <= s < c.splitK ==> rp[s] == norms(s)
    ensures mixes.Length == c.nOut
    ensures forall n :: 0 <= n < c.nOut ==>
              mixes[n] == Sum(c.splitK, cols(n)) * rsqrt(Sum(c.splitK, norms) / (c.hc * c.hidden) as real + rmsEps)
  {
    hide Sum;
    var rms := SumNorms(c, rp, norms);
    rms := rsqrt(rms / (c.hc * c.hidden) as real + rmsEps);
    mixes := new real[c.nOut];
    for n := 0 to c.nOut
      invariant forall i :: 0 <= i < n ==> mixes[i] == Sum(c.splitK, cols(i)) * rms
    {
      var m := SumColumn(c, yp, n, cols(n));
      mixes[n] := m * rms;
    }
  }

  method SumNorms(c: Config, rp: array<real>, ghost norms: int -> real) returns (m: real)
    requires rp.Length == c.splitK && forall s :: 0 <= s < c.splitK ==> rp[s] == norms(s)
    ensures m == Sum(c.splitK, norms)
  {
    m := 0.0;
    for s := 0 to c.splitK
      invariant m == Sum(s, norms)
    {
      m := m + rp[s];
    }
  }

  method SumColumn(c: Config, yp: array2<real>, n: nat, ghost col: int -> real) returns (m: real)
    requires n < c.nOut && yp.Length0 == c.splitK && yp.Length1 == c.nOut
    requires forall s :: 0 <= s < c.splitK ==> yp[s, n] == col(s)
    ensures m == Sum(c.splitK, col)
  {
    m := 0.0;
    for s := 0 to c.splitK
      invariant m == Sum(s, col)
    {
      m := m + yp[s, n];
    }
  }

  lemma SomeTile(c: Config)
    requires c.Ok() && c.nOut > 0 && c.nOut % c.tileN == 0
    ensures c.Tiles() > 0
  {
    assert c.nOut == c.Tiles() * c.tileN;
  }

  /**
   The fused path end to end: with even sizes and tiles that fill the columns it yields the plain dot products
   scaled by the plain root mean square, and the residual of the unfused kernel.
   */
  method FusedMixes(c: Config, inp: Inputs, rmsEps: real, rsqrt: real -> real)
    returns (mixes: array<real>, out: array2<real>)
    requires c.Ok() && c.hc * c.hidden > 0 && Even(c) && c.nOut > 0 && c.nOut % c.tileN == 0 && c.tileN <= WARP
    ensures mixes.Length == c.nOut && out.Length0 == c.hc && out.Length1 == c.hidden
    ensures forall n :: 0 <= n < c.nOut ==>
              mixes[n] == Sum(c.hidden, Dot(c, inp, n)) * rsqrt(MeanSquare(c, inp) + rmsEps)
    ensures forall j, p :: 0 <= j < c.hc && 0 <= p < c.hidden ==> out[j, p] == NewResidual(c, inp, j, p)
    ensures Routed(c, inp, out) && Projected(c, inp, mixes[..], out, rsqrt(MeanSquare(c, inp) + rmsEps))
  {
    hide Routed, Projected, Dot, Sqr, NewResidual, ColumnDone, OwnedBySplits, SliceSum, Sum, Even;
    var yp := new real[c.splitK, c.nOut];
    var rp := new real[c.splitK];
    out := new real[c.hc, c.hidden];
    FusedKernel(c, inp, yp, rp, out);
    ColumnsDoneIff(c);
    ResidualStoredIff(c);
    SomeTile(c);
    ghost var cols: int -> (int -> real) := n => Slices(c, Dot(c, inp, n));
    mixes := SumSplits(c, yp, rp, rmsEps, rsqrt, cols, Slices(c, Sqr(c, inp)));
    forall n ensures Sum(c.splitK, cols(n)) == Sum(c.hidden, Dot(c, inp, n)) { SplitsAddUp(c, Dot(c, inp, n)); }
    SplitsAddUp(c, Sqr(c, inp));
    RoutesStreams(c, inp, out);
    ProjectsStreams(c, inp, mixes[..], out, rsqrt(MeanSquare(c, inp) + rmsEps));
  }
}
