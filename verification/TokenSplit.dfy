/**
 Splitting each data-parallel rank's tokens evenly over its sequence-parallel ranks. One function lists the
 shares, another computes their running sums with a division written differently.
 */
module TokenSplit {
  import opened Arithmetic

  function Repeat(x: int, k: nat): (r: seq<int>)
    ensures |r| == k && forall i :: 0 <= i < k ==> r[i] == x
  {
    seq(k, _ => x)
  }

  /** `(n + sp - 1) // sp` for every rank, each repeated `sp` times. */
  function Shares(ns: seq<nat>, sp: nat): seq<int>
    requires sp > 0
  {
    if ns == [] then [] else Shares(ns[..|ns| - 1], sp) + Repeat((ns[|ns| - 1] + sp - 1) / sp, sp)
  }

  function SharesForSum(ns: seq<nat>, sp: nat): seq<int>
    requires sp > 0
  {
    if ns == [] then [] else SharesForSum(ns[..|ns| - 1], sp) + Repeat((ns[|ns| - 1] - 1 + sp) / sp, sp)
  }

  function Total(xs: seq<int>): int { if xs == [] then 0 else Total(xs[..|xs| - 1]) + xs[|xs| - 1] }

  function CumSum(xs: seq<int>): (r: seq<int>)
    ensures |r| == |xs|
  {
    if xs == [] then [] else CumSum(xs[..|xs| - 1]) + [Total(xs)]
  }

  function CuTokens(ns: seq<nat>, sp: nat): seq<int>
    requires sp > 0
  {
    CumSum(SharesForSum(ns, sp))
  }

  /** The smallest share that covers `n` tokens when all `sp` ranks get the same. */
  ghost predicate EvenShare(n: nat, sp: nat, share: int) { n <= sp * share < n + sp }

  lemma CeilIsEven(n: nat, sp: nat)
    requires sp > 0
    ensures EvenShare(n, sp, (n + sp - 1) / sp)
  {
    var m := n + sp - 1;
    var q := m / sp;
    DivBounds(m, sp);
    assert sp * q == q * sp;
  }

  lemma {:induction false} SharesAgree(ns: seq<nat>, sp: nat)
    requires sp > 0
    ensures Shares(ns, sp) == SharesForSum(ns, sp)
  {
    if ns != [] { SharesAgree(ns[..|ns| - 1], sp); }
  }

  lemma {:induction false} CumSumAt(xs: seq<int>, i: nat)
    requires i < |xs|
    ensures CumSum(xs)[i] == Total(xs[..i + 1])
  {
    var n := |xs| - 1;
    if i < n {
      CumSumAt(xs[..n], i);
      assert xs[..n][..i + 1] == xs[..i + 1];
    } else {
      assert xs[..i + 1] == xs;
    }
  }

  /** The running sums are those of the listed shares, entry by entry. */
  lemma CuTokensAreSums(ns: seq<nat>, sp: nat, i: nat)
    requires sp > 0 && i < |Shares(ns, sp)|
    ensures |CuTokens(ns, sp)| == |Shares(ns, sp)| && CuTokens(ns, sp)[i] == Total(Shares(ns, sp)[..i + 1])
  {
    SharesAgree(ns, sp);
    CumSumAt(SharesForSum(ns, sp), i);
  }

  lemma {:induction false} SharesSize(ns: seq<nat>, sp: nat)
    requires sp > 0
    ensures |Shares(ns, sp)| == |ns| * sp
  {
    if ns != [] {
      SharesSize(ns[..|ns| - 1], sp);
      assert |ns| * sp == (|ns| - 1) * sp + sp;
    }
  }

  /** Every sequence-parallel rank of data-parallel rank `r` gets the even share of that rank's tokens. */
  lemma {:induction false} SharesAt(ns: seq<nat>, sp: nat, r: nat, k: nat)
    requires sp > 0 && r < |ns| && k < sp
    ensures 0 <= r * sp + k < |Shares(ns, sp)| && EvenShare(ns[r], sp, Shares(ns, sp)[r * sp + k])
  {
    var n := |ns| - 1;
    SharesSize(ns, sp);
    SharesSize(ns[..n], sp);
    InGrid(r, k, |ns|, sp);
    if r < n {
      SharesAt(ns[..n], sp, r, k);
    } else {
      CeilIsEven(ns[n], sp);
    }
  }

  lemma {:induction false} TotalAppend(xs: seq<int>, ys: seq<int>)
    ensures Total(xs + ys) == Total(xs) + Total(ys)
  {
    if ys == [] {
      assert xs + ys == xs;
    } else {
      TotalAppend(xs, ys[..|ys| - 1]);
      assert (xs + ys)[..|xs + ys| - 1] == xs + ys[..|ys| - 1];
    }
  }

  lemma {:induction false} TotalRepeat(x: int, k: nat)
    ensures Total(Repeat(x, k)) == k * x
  {
    if k > 0 {
      TotalRepeat(x, k - 1);
      assert Repeat(x, k)[..k - 1] == Repeat(x, k - 1);
    }
  }

  ghost function Tokens(ns: seq<nat>): nat { if ns == [] then 0 else Tokens(ns[..|ns| - 1]) + ns[|ns| - 1] }

  lemma SharesLast(ns: seq<nat>, sp: nat)
    requires sp > 0 && ns != []
    ensures Total(Shares(ns, sp)) == Total(Shares(ns[..|ns| - 1], sp)) + sp * ((ns[|ns| - 1] + sp - 1) / sp)
  {
    hide Total;
    var share := (ns[|ns| - 1] + sp - 1) / sp;
    TotalAppend(Shares(ns[..|ns| - 1], sp), Repeat(share, sp));
    TotalRepeat(share, sp);
  }

  lemma ShareSlack(n: nat, sp: nat)
    requires sp > 0
    ensures n <= sp * ((n + sp - 1) / sp) <= n + (sp - 1)
  {
    CeilIsEven(n, sp);
  }

  lemma SlackNext(n: nat, slack: nat)
    ensures (n + 1) * slack == n * slack + slack
  {
  }

  /** All tokens are covered, with less than one spare token per sequence-parallel rank. */
  lemma {:induction false} SharesCover(ns: seq<nat>, sp: nat)
    requires sp > 0
    ensures Tokens(ns) <= Total(Shares(ns, sp)) <= Tokens(ns) + |ns| * (sp - 1)
  {
    if ns != [] {
      hide Shares, Total;
      var n := |ns| - 1;
      SharesCover(ns[..n], sp);
      SharesLast(ns, sp);
      ShareSlack(ns[n], sp);
      SlackNext(n, sp - 1);
    }
  }
}
