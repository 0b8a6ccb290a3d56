/**
 Soundness and tightness of the partition signatures: if the unpartitioned schedule runs, then so does the
 wrapper that calls the partitions one after the other with nothing but their signatures.
 */
module PartitionSoundness {
  import opened Lists
  import opened PartitionSignatures

  // ------------------------------------------------------------------ flows

  /** Live buffers were produced, are real and allocated; the buffer behind a produced alias was produced too. */
  ghost predicate FlowOk(g: Graph, f: Flow)
    requires Resolved(g)
  {
    && (forall n :: n in f.live ==> n in f.seen && n !in g.renames && n in g.nodes && !IsNoneLayout(g, n))
    && (forall a :: a in f.seen && a in g.renames && !IsNoneLayout(g, a) ==> g.renames[a] in f.seen)
  }

  ghost predicate PartOk(g: Graph, f: Flow, p: Partition)
    requires Resolved(g)
  {
    forall j :: 0 <= j < |p| ==> NodeOk(g, After(g, f, p, j), p[j])
  }

  ghost predicate AliasesShareLayout(g: Graph)
    requires Resolved(g)
  {
    forall a :: a in g.renames ==> IsNoneLayout(g, a) == IsNoneLayout(g, g.renames[a])
  }

  /** Storage by a buffer's own layout. */
  predicate Stored(g: Graph, n: Name) { n !in g.buffers || g.buffers[n].Allocated? }

  /**
   A real buffer has storage exactly when its layout says so. An alias has it exactly when the buffer it mutates has,
   if and only if it is recorded as a mutation output or the two layouts agree anyway.
   */
  lemma LayoutsAgreeIff(g: Graph, n: Name)
    requires Resolved(g)
    ensures n !in g.renames ==> (IsNoneLayout(g, n) <==> !Stored(g, n))
    ensures n in g.renames ==>
              var target := g.renames[n];
              (IsNoneLayout(g, n) == IsNoneLayout(g, target)) ==
              ((n in g.buffers && g.buffers[n].MutationOutput?) || Stored(g, n) == Stored(g, target))
  {
  }

  /** A node brings to life only what it produces; an alias it produces was alive already. */
  lemma AllocatesNew(g: Graph, f: Flow, node: Node, n: Name)
    requires Resolved(g) && AliasesShareLayout(g) && NodeOk(g, f, node) && n in Allocates(g, node.outputs)
    ensures n in node.outputs || n in f.live
    ensures n in node.outputs ==> n in g.nodes
    ensures n !in g.renames && !IsNoneLayout(g, n)
  {
    hide IsNoneLayout;
    var x :| x in node.outputs && !IsNoneLayout(g, x) && Real(g, x) == n;
    if x in g.renames {
      assert Mutates(g, node, n);
    }
  }

  lemma NodeFlowOk(g: Graph, f: Flow, node: Node)
    requires Resolved(g) && AliasesShareLayout(g) && FlowOk(g, f) && NodeOk(g, f, node)
    ensures FlowOk(g, NodeFlow(g, f, node))
  {
    hide IsNoneLayout;
    var f' := NodeFlow(g, f, node);
    forall n | n in f'.live ensures n in f'.seen && n !in g.renames && n in g.nodes && !IsNoneLayout(g, n) {
      if n !in f.live { AllocatesNew(g, f, node, n); }
    }
    forall a | a in f'.seen && a in g.renames && !IsNoneLayout(g, a) ensures g.renames[a] in f'.seen {
      if a !in f.seen { assert Mutates(g, node, g.renames[a]); }
    }
  }

  /** A name that is known but not alive stays dead. */
  lemma NodeNoReturn(g: Graph, f: Flow, node: Node, n: Name)
    requires Resolved(g) && AliasesShareLayout(g) && NodeOk(g, f, node) && n in f.seen && n !in f.live
    ensures n !in NodeFlow(g, f, node).live
  {
    hide IsNoneLayout;
    if n in Allocates(g, node.outputs) { AllocatesNew(g, f, node, n); }
  }

  lemma {:induction false} AfterOk(g: Graph, f: Flow, p: Partition, j: nat)
    requires Resolved(g) && AliasesShareLayout(g) && FlowOk(g, f) && PartOk(g, f, p) && j <= |p|
    ensures FlowOk(g, After(g, f, p, j))
  {
    hide IsNoneLayout, FlowOk, NodeOk;
    if j > 0 {
      AfterOk(g, f, p, j - 1);
      NodeFlowOk(g, After(g, f, p, j - 1), p[j - 1]);
    }
  }

  lemma {:induction false} AfterSeen(g: Graph, f: Flow, p: Partition, j: nat, x: Name)
    requires Resolved(g) && j <= |p|
    ensures x in After(g, f, p, j).seen <==> x in f.seen || exists k :: 0 <= k < j && x in p[k].outputs
  {
    hide IsNoneLayout;
    if j > 0 {
      AfterSeen(g, f, p, j - 1, x);
    }
  }

  lemma {:induction false} AfterNoReturn(g: Graph, f: Flow, p: Partition, j: nat, k: nat, n: Name)
    requires Resolved(g) && AliasesShareLayout(g) && PartOk(g, f, p) && j <= k <= |p|
    requires n in After(g, f, p, j).seen && n !in After(g, f, p, j).live
    ensures n !in After(g, f, p, k).live && n in After(g, f, p, k).seen
    decreases k - j
  {
    hide IsNoneLayout, NodeOk, Allocates;
    if j < k {
      AfterNoReturn(g, f, p, j, k - 1, n);
      NodeNoReturn(g, After(g, f, p, k - 1), p[k - 1], n);
    }
  }

  /** What a partition produces is new to it. */
  lemma OutsNew(g: Graph, f: Flow, p: Partition, x: Name)
    requires Resolved(g) && PartOk(g, f, p) && x in Outs(p)
    ensures x !in f.seen && x in g.nodes
  {
    hide IsNoneLayout;
    var j :| 0 <= j < |p| && x in p[j].outputs;
    AfterSeen(g, f, p, j, x);
    assert NodeOk(g, After(g, f, p, j), p[j]);
  }

  // ------------------------------------------------------------------ inputs

  /** Inputs are real names. */
  lemma InsReal(g: Graph, f: Flow, p: Partition, n: Name)
    requires Resolved(g) && PartOk(g, f, p) && n in Ins(g, p)
    ensures n !in g.renames
  {
    hide IsNoneLayout;
    if n in Frees(p) && n in g.nodes {
      var j :| 0 <= j < |p| && n in p[j].lastUsage;
      assert NodeOk(g, After(g, f, p, j), p[j]);
    }
  }

  /** An allocated input was alive when the partition began. */
  lemma InsLive(g: Graph, f: Flow, p: Partition, n: Name)
    requires Resolved(g) && AliasesShareLayout(g) && FlowOk(g, f) && PartOk(g, f, p)
    requires n in Ins(g, p) && n in g.nodes && !IsNoneLayout(g, n)
    ensures n in f.live
  {
    hide IsNoneLayout;
    var j: nat := InsAliveSomewhere(g, f, p, n);
    if n !in f.live { AfterNoReturn(g, f, p, 0, j, n); }
  }

  lemma InsAliveSomewhere(g: Graph, f: Flow, p: Partition, n: Name) returns (j: nat)
    requires Resolved(g) && AliasesShareLayout(g) && FlowOk(g, f) && PartOk(g, f, p)
    requires n in Ins(g, p) && n in g.nodes && !IsNoneLayout(g, n)
    ensures j < |p| && n in After(g, f, p, j).live && n in f.seen
  {
    hide IsNoneLayout;
    if x :| x in Uses(p) && x !in Outs(p) && !IsNoneLayout(g, x) && Real(g, x) == n {
      j :| 0 <= j < |p| && x in p[j].uses;
      assert NodeOk(g, After(g, f, p, j), p[j]);
      AfterSeen(g, f, p, j, x);
      assert x !in p[j].outputs;
      assert forall k :: 0 <= k < j ==> x !in p[k].outputs;
      assert x in f.seen;
    } else {
      j :| 0 <= j < |p| && n in p[j].lastUsage;
      assert NodeOk(g, After(g, f, p, j), p[j]);
      AfterOk(g, f, p, j);
      AfterSeen(g, f, p, j, n);
      if n in Allocates(g, p[j].outputs) { AllocatesNew(g, After(g, f, p, j), p[j], n); }
      assert forall k :: 0 <= k < |p| ==> n !in p[k].outputs;
    }
  }

  /** The real buffer behind anything a partition produces is produced by it or taken in. */
  lemma {:induction false} AliasReached(g: Graph, f: Flow, p: Partition, j: nat, x: Name)
    requires Resolved(g) && AliasesShareLayout(g) && PartOk(g, f, p)
    requires j < |p| && x in p[j].outputs && !IsNoneLayout(g, x)
    ensures Real(g, x) in Outs(p) || Real(g, x) in Ins(g, p)
  {
    hide IsNoneLayout;
    if x in g.renames {
      assert NodeOk(g, After(g, f, p, j), p[j]);
      assert Mutates(g, p[j], g.renames[x]);
      var u :| u in p[j].uses && u !in p[j].outputs && Real(g, u) == g.renames[x] && !IsNoneLayout(g, u);
      assert u in Uses(p);
      if u in Outs(p) {
        OutsNew(g, f, p, u);
        AfterSeen(g, f, p, j, u);
        var k :| 0 <= k < j && u in p[k].outputs;
        AliasReached(g, f, p, k, u);
      }
    } else {
      assert x in Outs(p);
    }
  }

  // ------------------------------------------------------------------ inside one partition

  /** What is alive inside a partition function that was called with `inputs`, after its first `j` nodes. */
  function Local(g: Graph, p: Partition, inputs: set<Name>, j: nat): set<Name>
    requires Resolved(g) && j <= |p|
  {
    if j == 0 then inputs else (Local(g, p, inputs, j - 1) + Allocates(g, p[j - 1].outputs)) - p[j - 1].lastUsage
  }

  function Inputs(g: Graph, p: Partition): set<Name>
    requires Resolved(g)
  {
    set n | n in Ins(g, p) && n in g.nodes
  }

  lemma {:induction false} LocalCovers(g: Graph, f: Flow, p: Partition, j: nat, n: Name)
    requires Resolved(g) && FlowOk(g, f) && j <= |p| && n in After(g, f, p, j).live
    ensures n in Local(g, p, Inputs(g, p), j) || (n in f.live && n !in Ins(g, p))
  {
    hide IsNoneLayout, Ins;
    if j > 0 && n !in Allocates(g, p[j - 1].outputs) { LocalCovers(g, f, p, j - 1, n); }
  }

  /** Every node of a partition function finds what it uses. */
  lemma LocalUses(g: Graph, f: Flow, p: Partition, j: nat, x: Name)
    requires Resolved(g) && AliasesShareLayout(g) && FlowOk(g, f) && PartOk(g, f, p) && j < |p|
    requires x in p[j].uses && x !in p[j].outputs && !IsNoneLayout(g, x) && Real(g, x) in g.nodes
    ensures Real(g, x) in Local(g, p, Inputs(g, p), j)
  {
    hide IsNoneLayout;
    assert NodeOk(g, After(g, f, p, j), p[j]);
    var n := Real(g, x);
    LocalCovers(g, f, p, j, n);
    assert x in Uses(p);
    if x in Outs(p) {
      var k :| 0 <= k < |p| && x in p[k].outputs;
      AliasReached(g, f, p, k, x);
      if n in Outs(p) { OutsNew(g, f, p, n); }
    }
  }

  /** An input that is not freed is still there at the end. */
  lemma {:induction false} LocalKeeps(g: Graph, p: Partition, inputs: set<Name>, j: nat, n: Name)
    requires Resolved(g) && j <= |p| && n in inputs && n !in Frees(p)
    ensures n in Local(g, p, inputs, j)
  {
    hide IsNoneLayout;
    if j > 0 {
      LocalKeeps(g, p, inputs, j - 1, n);
      assert n !in p[j - 1].lastUsage;
    }
  }

  /** A freed buffer is gone after the node that freed it. */
  lemma FreedDies(g: Graph, f: Flow, p: Partition, j: nat, n: Name)
    requires Resolved(g) && AliasesShareLayout(g) && FlowOk(g, f) && PartOk(g, f, p)
    requires j < |p| && n in p[j].lastUsage && n in g.nodes
    ensures n in After(g, f, p, j + 1).seen && n !in After(g, f, p, j + 1).live
  {
    hide IsNoneLayout;
    assert NodeOk(g, After(g, f, p, j), p[j]);
    AfterOk(g, f, p, j);
    if n in Allocates(g, p[j].outputs) { AllocatesNew(g, After(g, f, p, j), p[j], n); }
  }

  /** What is alive after a partition was not freed in it. */
  lemma AliveNotFreed(g: Graph, f: Flow, p: Partition, n: Name)
    requires Resolved(g) && AliasesShareLayout(g) && FlowOk(g, f) && PartOk(g, f, p)
    requires n in After(g, f, p, |p|).live
    ensures n !in Frees(p)
  {
    hide IsNoneLayout, After, NodeOk, PartOk;
    AfterOk(g, f, p, |p|);
    forall j | 0 <= j < |p| ensures n !in p[j].lastUsage {
      if n in p[j].lastUsage {
        FreedDies(g, f, p, j, n);
        AfterNoReturn(g, f, p, j + 1, |p|, n);
      }
    }
  }

  /** A name alive after a partition that did not produce it was alive before. */
  lemma AliveBefore(g: Graph, f: Flow, p: Partition, n: Name)
    requires Resolved(g) && AliasesShareLayout(g) && FlowOk(g, f) && PartOk(g, f, p)
    requires n in After(g, f, p, |p|).live && n !in Outs(p)
    ensures n in f.live
  {
    hide IsNoneLayout;
    AfterOk(g, f, p, |p|);
    AfterSeen(g, f, p, |p|, n);
    if n !in f.live { AfterNoReturn(g, f, p, 0, |p|, n); }
  }

  // ------------------------------------------------------------------ across partitions

  lemma {:induction false} FlowAtOk(g: Graph, parts: seq<Partition>, i: nat)
    requires ScheduleOk(g, parts) && i <= |parts|
    ensures Resolved(g) && FlowOk(g, FlowAt(g, parts, i)) && AliasesShareLayout(g)
    ensures i < |parts| ==> PartOk(g, FlowAt(g, parts, i), parts[i])
  {
    hide NodeOk;
    if i > 0 {
      FlowAtOk(g, parts, i - 1);
      AfterOk(g, FlowAt(g, parts, i - 1), parts[i - 1], |parts[i - 1]|);
    }
  }

  lemma SeenGrows(g: Graph, parts: seq<Partition>, i: nat, x: Name)
    requires Resolved(g) && i < |parts|
    ensures x in FlowAt(g, parts, i + 1).seen <==> x in FlowAt(g, parts, i).seen || x in Outs(parts[i])
  {
    hide IsNoneLayout;
    AfterSeen(g, FlowAt(g, parts, i), parts[i], |parts[i]|, x);
  }

  lemma {:induction false} AliveStays(g: Graph, parts: seq<Partition>, i: nat, k: nat, n: Name)
    requires ScheduleOk(g, parts) && i <= k <= |parts|
    requires n in FlowAt(g, parts, i).seen && n in FlowAt(g, parts, k).live
    ensures n in FlowAt(g, parts, i).live
    decreases k - i
  {
    hide ScheduleOk, NodeOk, IsNoneLayout, PartOk, FlowOk, After;
    if i < k {
      FlowAtOk(g, parts, i);
      SeenGrows(g, parts, i, n);
      AliveStays(g, parts, i + 1, k, n);
      if n in Outs(parts[i]) { OutsNew(g, FlowAt(g, parts, i), parts[i], n); }
      AliveBefore(g, FlowAt(g, parts, i), parts[i], n);
    }
  }

  /** Anything wanted later and already produced is alive. */
  lemma {:induction false} WantedIsAlive(g: Graph, parts: seq<Partition>, i: nat, x: Name)
    requires ScheduleOk(g, parts) && i <= |parts|
    requires x in Unmet(g, parts, i) && x in FlowAt(g, parts, i).seen && x in g.nodes && !IsNoneLayout(g, x)
    ensures Real(g, x) in FlowAt(g, parts, i).live
    decreases |parts| - i
  {
    hide NodeOk, IsNoneLayout, Ins, Returned;
    if i < |parts| {
      FlowAtOk(g, parts, i);
      if x in Ins(g, parts[i]) {
        InsReal(g, FlowAt(g, parts, i), parts[i], x);
        InsLive(g, FlowAt(g, parts, i), parts[i], x);
      } else {
        SeenGrows(g, parts, i, x);
        WantedIsAlive(g, parts, i + 1, x);
        AliveStays(g, parts, i, i + 1, Real(g, x));
      }
    }
  }

  /** Names in scope of the wrapper before call `i`: inputs the callee frees are deleted, outputs are bound. */
  function Bound(g: Graph, parts: seq<Partition>, i: nat): set<Name>
    requires Resolved(g) && i <= |parts|
  {
    if i == 0 then GraphInputs(g, parts)
    else (Bound(g, parts, i - 1) - Inputs(g, parts[i - 1]) * Frees(parts[i - 1]))
         + Outputs(g, parts[i - 1], Unmet(g, parts, i))
  }

  function Outputs(g: Graph, p: Partition, unmet: set<Name>): set<Name>
    requires Resolved(g)
  {
    set n | n in Returned(g, p, unmet) && !IsNoneLayout(g, n) && n in g.nodes
  }

  lemma ReturnsProduced(g: Graph, p: Partition, unmet: set<Name>, x: Name)
    requires Resolved(g) && x in Outs(p) && x in unmet && !IsNoneLayout(g, Real(g, x)) && Real(g, x) in g.nodes
    ensures Real(g, x) in Outputs(g, p, unmet)
  {
    hide IsNoneLayout, Ins;
    assert x in Outs(p) * unmet + (set n | n in Ins(g, p) && n in g.nodes && n !in Frees(p));
  }

  /** What is wanted and alive is in scope: the invariant that carries buffers from producer to consumer. */
  lemma {:induction false} WantedIsBound(g: Graph, parts: seq<Partition>, i: nat, n: Name)
    requires ScheduleOk(g, parts) && i <= |parts|
    requires n in Unmet(g, parts, i) && n in FlowAt(g, parts, i).live
    ensures n in Bound(g, parts, i)
  {
    hide NodeOk, IsNoneLayout, Ins, Returned, PartOk, After;
    if i > 0 {
      var p, f := parts[i - 1], FlowAt(g, parts, i - 1);
      FlowAtOk(g, parts, i);
      FlowAtOk(g, parts, i - 1);
      if n in Outs(p) {
        ReturnsProduced(g, p, Unmet(g, parts, i), n);
      } else {
        AliveNotFreed(g, f, p, n);
        AliveBefore(g, f, p, n);
        if n in Unmet(g, parts, i - 1) {
          WantedIsBound(g, parts, i - 1, n);
        }
      }
    }
  }

  /** The wrapper only deletes what is freed: an alive name in scope stays in scope. */
  lemma {:induction false} BoundStays(g: Graph, parts: seq<Partition>, i: nat, k: nat, n: Name)
    requires ScheduleOk(g, parts) && i <= k <= |parts|
    requires n in Bound(g, parts, i) && n in FlowAt(g, parts, i).seen && n in FlowAt(g, parts, k).live
    ensures n in Bound(g, parts, k)
    decreases k - i
  {
    hide ScheduleOk, NodeOk, IsNoneLayout, Ins, Outputs, PartOk, FlowOk, After;
    if i < k {
      FlowAtOk(g, parts, i);
      SeenGrows(g, parts, i, n);
      AliveStays(g, parts, i + 1, k, n);
      AliveNotFreed(g, FlowAt(g, parts, i), parts[i], n);
      BoundStays(g, parts, i + 1, k, n);
    }
  }

  // ------------------------------------------------------------------ main results

  /** A free that reaches across a partition boundary to a buffer that was never allocated. */
  ghost predicate StrayFree(g: Graph, parts: seq<Partition>, i: nat, n: Name)
    requires Resolved(g) && i < |parts|
  {
    n in Frees(parts[i]) && n !in Outs(parts[i]) && n in g.nodes && IsNoneLayout(g, n)
  }

  /**
   Inputs are there: call `i` finds an input in scope if and only if it is not a stray free. Inputs taken in
   because they are used are always found.
   */
  lemma InputsBoundIff(g: Graph, parts: seq<Partition>, i: nat, n: Name)
    requires ScheduleOk(g, parts) && i < |parts| && n in Inputs(g, parts[i])
    ensures n in Bound(g, parts, i) <==> !StrayFree(g, parts, i, n)
  {
    hide NodeOk, IsNoneLayout, Returned;
    FlowAtOk(g, parts, i);
    if IsNoneLayout(g, n) {
      UsedIsAllocated(g, parts[i], n);
      UnallocatedNeverBound(g, parts, i, n);
    } else {
      InsLive(g, FlowAt(g, parts, i), parts[i], n);
      WantedIsBound(g, parts, i, n);
    }
  }

  lemma UsedIsAllocated(g: Graph, p: Partition, n: Name)
    requires Resolved(g) && AliasesShareLayout(g) && n in Ins(g, p) && IsNoneLayout(g, n)
    ensures n in Frees(p) && n !in Outs(p)
  {
    hide IsNoneLayout;
  }

  lemma {:induction false} UnallocatedNeverBound(g: Graph, parts: seq<Partition>, i: nat, n: Name)
    requires ScheduleOk(g, parts) && i <= |parts| && IsNoneLayout(g, n)
    ensures n !in Bound(g, parts, i)
  {
    hide NodeOk, Ins, Returned;
    if i > 0 { UnallocatedNeverBound(g, parts, i - 1, n); }
  }

  /**
   Partition `i` runs: each of its nodes finds every allocated buffer it uses among the inputs and earlier results.
   */
  lemma NodesFindTheirBuffers(g: Graph, parts: seq<Partition>, i: nat, j: nat, x: Name)
    requires ScheduleOk(g, parts) && i < |parts| && j < |parts[i]|
    requires x in parts[i][j].uses && x !in parts[i][j].outputs && !IsNoneLayout(g, x) && Real(g, x) in g.nodes
    ensures Real(g, x) in Local(g, parts[i], Inputs(g, parts[i]), j)
  {
    hide NodeOk, IsNoneLayout, Local;
    FlowAtOk(g, parts, i);
    LocalUses(g, FlowAt(g, parts, i), parts[i], j, x);
  }

  lemma ReturnedFrom(g: Graph, p: Partition, unmet: set<Name>, n: Name) returns (x: Name)
    requires Resolved(g) && n in Returned(g, p, unmet)
    ensures Real(g, x) == n
    ensures (x in Outs(p) && x in unmet) || (x in Ins(g, p) && x in g.nodes && x !in Frees(p))
  {
    hide IsNoneLayout, Ins;
    x :| x in Outs(p) * unmet + (set m | m in Ins(g, p) && m in g.nodes && m !in Frees(p)) && Real(g, x) == n;
  }

  /** Every returned buffer is alive inside the partition function when it returns. */
  lemma OutputsAreThere(g: Graph, parts: seq<Partition>, i: nat, n: Name)
    requires ScheduleOk(g, parts) && i < |parts| && n in Outputs(g, parts[i], Unmet(g, parts, i + 1))
    ensures n in Local(g, parts[i], Inputs(g, parts[i]), |parts[i]|)
  {
    hide NodeOk, IsNoneLayout, Ins, Returned, Unmet;
    var p, f := parts[i], FlowAt(g, parts, i);
    FlowAtOk(g, parts, i);
    var x := ReturnedFrom(g, p, Unmet(g, parts, i + 1), n);
    if x in Ins(g, p) && x in g.nodes && x !in Frees(p) {
      InsReal(g, f, p, x);
      LocalKeeps(g, p, Inputs(g, p), |p|, n);
    } else {
      OutsNew(g, f, p, x);
      SeenGrows(g, parts, i, x);
      SameLayout(g, x);
      WantedIsAlive(g, parts, i + 1, x);
      LocalCovers(g, f, p, |p|, n);
      var j :| 0 <= j < |p| && x in p[j].outputs;
      AliasReached(g, f, p, j, x);
      if n in Outs(p) { OutsNew(g, f, p, n); }
    }
  }

  lemma SameLayout(g: Graph, x: Name)
    requires Resolved(g) && AliasesShareLayout(g)
    ensures IsNoneLayout(g, Real(g, x)) == IsNoneLayout(g, x)
  {
  }

  /** No returned name lacks a node, so building the signatures never fails. */
  lemma SignaturesAlwaysBuilt(g: Graph, parts: seq<Partition>, i: nat, skip: bool)
    requires ScheduleOk(g, parts) && i < |parts|
    ensures SignatureAt(g, parts, i, skip).Some?
  {
    hide NodeOk, IsNoneLayout, Ins, Unmet, Returned;
    FlowAtOk(g, parts, i);
    var unmet := Unmet(g, parts, i + 1);
    forall n | n in Returned(g, parts[i], unmet) ensures n in g.nodes {
      var x := ReturnedFrom(g, parts[i], unmet, n);
      if x in Outs(parts[i]) && x in unmet {
        OutsNew(g, FlowAt(g, parts, i), parts[i], x);
      } else {
        InsReal(g, FlowAt(g, parts, i), parts[i], x);
      }
    }
  }

  /** After the last call every allocated graph output is in scope under its real name. */
  lemma GraphOutputsBound(g: Graph, parts: seq<Partition>, o: Name)
    requires ScheduleOk(g, parts) && o in g.outputs && !IsNoneLayout(g, o)
    ensures Real(g, o) in Bound(g, parts, |parts|)
  {
    hide NodeOk, IsNoneLayout, Ins, Returned, FlowOk;
    if o !in g.renames {
      WantedIsBound(g, parts, |parts|, o);
    } else {
      AliasOutputBound(g, parts, o);
    }
  }

  lemma {:induction false} ProducedSomewhere(g: Graph, parts: seq<Partition>, i: nat, x: Name) returns (k: nat)
    requires Resolved(g) && i <= |parts| && x in FlowAt(g, parts, i).seen && x !in GraphInputs(g, parts)
    ensures k < i && x in Outs(parts[k])
  {
    hide IsNoneLayout;
    SeenGrows(g, parts, i - 1, x);
    if x in Outs(parts[i - 1]) { k := i - 1; } else { k := ProducedSomewhere(g, parts, i - 1, x); }
  }

  /** An alias is never itself returned, so as a graph output it stays wanted all the way back to its producer. */
  lemma {:induction false} AliasStaysWanted(g: Graph, parts: seq<Partition>, i: nat, o: Name)
    requires Resolved(g) && i <= |parts| && o in g.outputs && o in g.renames
    ensures o in Unmet(g, parts, i)
    decreases |parts| - i
  {
    hide IsNoneLayout, Ins;
    if i < |parts| { AliasStaysWanted(g, parts, i + 1, o); }
  }

  lemma AliasOutputBound(g: Graph, parts: seq<Partition>, o: Name)
    requires ScheduleOk(g, parts) && o in g.outputs && !IsNoneLayout(g, o) && o in g.renames
    ensures Real(g, o) in Bound(g, parts, |parts|)
  {
    hide ScheduleOk, NodeOk, IsNoneLayout, Ins, Returned, FlowOk, PartOk, Outputs, Bound, Unmet, FlowAt;
    AliasOutputFacts(g, parts, o);
    var k := ProducedSomewhere(g, parts, |parts|, o);
    FlowAtOk(g, parts, k);
    OutsNew(g, FlowAt(g, parts, k), parts[k], o);
    AliasStaysWanted(g, parts, k + 1, o);
    SameLayout(g, o);
    ReturnsProduced(g, parts[k], Unmet(g, parts, k + 1), o);
    OutputsBound(g, parts, k, Real(g, o));
    SeenGrows(g, parts, k, o);
    AliasTargetSeen(g, parts, k + 1, o);
    BoundStays(g, parts, k + 1, |parts|, Real(g, o));
  }

  lemma AliasOutputFacts(g: Graph, parts: seq<Partition>, o: Name)
    requires ScheduleOk(g, parts) && o in g.outputs && !IsNoneLayout(g, o) && o in g.renames
    ensures o !in GraphInputs(g, parts) && o in FlowAt(g, parts, |parts|).seen &&
            Real(g, o) in FlowAt(g, parts, |parts|).live
    ensures Resolved(g) && (o in g.nodes ==> Real(g, o) in g.nodes)
  {
    hide NodeOk, IsNoneLayout;
  }

  lemma OutputsBound(g: Graph, parts: seq<Partition>, k: nat, n: Name)
    requires Resolved(g) && k < |parts| && n in Outputs(g, parts[k], Unmet(g, parts, k + 1))
    ensures n in Bound(g, parts, k + 1)
  {
    hide IsNoneLayout, Ins, Returned, Unmet;
  }

  lemma AliasTargetSeen(g: Graph, parts: seq<Partition>, i: nat, a: Name)
    requires ScheduleOk(g, parts) && i <= |parts| && a in FlowAt(g, parts, i).seen && a in g.renames &&
             !IsNoneLayout(g, a)
    ensures g.renames[a] in FlowAt(g, parts, i).seen
  {
    hide NodeOk, IsNoneLayout;
    FlowAtOk(g, parts, i);
  }

  /** Tightness: a name still wanted at `i` is a graph output or an input of partition `i` or a later one. */
  lemma {:induction false} WantedByWhom(g: Graph, parts: seq<Partition>, i: nat, n: Name) returns (k: nat)
    requires Resolved(g) && i <= |parts| && n in Unmet(g, parts, i)
    ensures n in g.outputs || (i <= k < |parts| && n in Ins(g, parts[k]))
    decreases |parts| - i
  {
    hide IsNoneLayout, Ins, Returned;
    k := i;
    if i < |parts| && n !in Ins(g, parts[i]) { k := WantedByWhom(g, parts, i + 1, n); }
  }

  /**
   Nothing is returned for nobody: a returned buffer is an input passed on, or was produced here for a graph output or a
   later call.
   */
  lemma ReturnedIsWanted(g: Graph, parts: seq<Partition>, i: nat, n: Name) returns (x: Name, k: nat)
    requires ScheduleOk(g, parts) && i < |parts| && n in Outputs(g, parts[i], Unmet(g, parts, i + 1))
    ensures Real(g, x) == n
    ensures || (x == n && n in Inputs(g, parts[i]) && n !in Frees(parts[i]))
            || (x in Outs(parts[i]) && (x in g.outputs || (i < k < |parts| && x in Ins(g, parts[k]))))
  {
    hide NodeOk, IsNoneLayout, Ins, Returned, Unmet;
    FlowAtOk(g, parts, i);
    x := ReturnedFrom(g, parts[i], Unmet(g, parts, i + 1), n);
    k := 0;
    if x in Outs(parts[i]) && x in Unmet(g, parts, i + 1) {
      k := WantedByWhom(g, parts, i + 1, x);
    } else {
      InsReal(g, FlowAt(g, parts, i), parts[i], x);
    }
  }

  /** The maps of a built signature are the sets this file speaks about. */
  lemma SignatureFields(g: Graph, parts: seq<Partition>, i: nat, skip: bool, s: Signature)
    requires Resolved(g) && i < |parts| && SignatureAt(g, parts, i, skip) == Some(s)
    ensures s.inputs.Keys == Inputs(g, parts[i]) && s.outputs.Keys == Outputs(g, parts[i], Unmet(g, parts, i + 1))
    ensures forall n :: n in s.deallocates && s.deallocates[n] <==> n in Inputs(g, parts[i]) * Frees(parts[i])
    ensures OwnNodes(g, s) && s.skipCudagraph == skip && s.constants == ConstantsOf(g, parts[i])
  {
    hide IsNoneLayout, Ins, Returned, Unmet;
  }

  // ------------------------------------------------------------------ from producer to consumer

  /** A produced input stays wanted from its consumer back to its producer. */
  lemma {:induction false} StaysWanted(g: Graph, parts: seq<Partition>, k: nat, j: nat, i: nat, n: Name)
    requires ScheduleOk(g, parts) && k < j <= i < |parts|
    requires n in Outs(parts[k]) && n in Inputs(g, parts[i]) && !IsNoneLayout(g, n)
    ensures n in Unmet(g, parts, j) && n in FlowAt(g, parts, j).seen
    decreases i - j
  {
    hide ScheduleOk, NodeOk, IsNoneLayout, Ins, Returned, FlowOk, PartOk, FlowAt;
    FlowAtOk(g, parts, j);
    SeenAfterProduced(g, parts, k, j, n);
    if j < i {
      StaysWanted(g, parts, k, j + 1, i, n);
      if n in Returned(g, parts[j], Unmet(g, parts, j + 1)) {
        FlowAtOk(g, parts, i);
        InsReal(g, FlowAt(g, parts, i), parts[i], n);
        ReturnedEarlier(g, parts, j, n);
      }
    }
  }

  lemma {:induction false} SeenAfterProduced(g: Graph, parts: seq<Partition>, k: nat, j: nat, n: Name)
    requires Resolved(g) && k < j <= |parts| && n in Outs(parts[k])
    ensures n in FlowAt(g, parts, j).seen
  {
    hide IsNoneLayout, FlowAt;
    SeenGrows(g, parts, j - 1, n);
    if k < j - 1 { SeenAfterProduced(g, parts, k, j - 1, n); }
  }

  /** A partition that returns a buffer it did not produce took it in. */
  lemma ReturnedEarlier(g: Graph, parts: seq<Partition>, j: nat, n: Name)
    requires ScheduleOk(g, parts) && j < |parts| && n in FlowAt(g, parts, j).seen && n !in g.renames &&
             !IsNoneLayout(g, n)
    requires n in Returned(g, parts[j], Unmet(g, parts, j + 1))
    ensures n in Ins(g, parts[j])
  {
    hide ScheduleOk, NodeOk, IsNoneLayout, Ins, Returned, FlowOk, FlowAt, Unmet;
    FlowAtOk(g, parts, j);
    var f, p := FlowAt(g, parts, j), parts[j];
    var x := ReturnedFrom(g, p, Unmet(g, parts, j + 1), n);
    if x in Outs(p) && x in Unmet(g, parts, j + 1) {
      SameLayout(g, x);
      var m :| 0 <= m < |p| && x in p[m].outputs;
      AliasReached(g, f, p, m, x);
      if n in Outs(p) { OutsNew(g, f, p, n); }
    } else {
      InsReal(g, f, p, x);
    }
  }

  /** A produced graph output stays wanted from the end back to its producer. */
  lemma {:induction false} OutputStaysWanted(g: Graph, parts: seq<Partition>, k: nat, j: nat, o: Name)
    requires ScheduleOk(g, parts) && k < j <= |parts| && o in Outs(parts[k]) && o in g.outputs
    requires o !in g.renames && !IsNoneLayout(g, o)
    ensures o in Unmet(g, parts, j)
    decreases |parts| - j
  {
    hide ScheduleOk, NodeOk, IsNoneLayout, Ins, Returned, FlowOk, PartOk, FlowAt;
    if j < |parts| {
      FlowAtOk(g, parts, j);
      SeenAfterProduced(g, parts, k, j, o);
      OutputStaysWanted(g, parts, k, j + 1, o);
      if o in Returned(g, parts[j], Unmet(g, parts, j + 1)) { ReturnedEarlier(g, parts, j, o); }
    }
  }

  /** Every allocated graph output is returned, under its real name, by the partition that produces it. */
  lemma GraphOutputReturned(g: Graph, parts: seq<Partition>, k: nat, o: Name)
    requires ScheduleOk(g, parts) && k < |parts| && o in Outs(parts[k]) && o in g.outputs && !IsNoneLayout(g, o)
    ensures Real(g, o) in Outputs(g, parts[k], Unmet(g, parts, k + 1))
  {
    hide ScheduleOk, NodeOk, IsNoneLayout, Ins, Returned, FlowOk, PartOk, FlowAt, Unmet, Outputs;
    FlowAtOk(g, parts, k);
    OutsNew(g, FlowAt(g, parts, k), parts[k], o);
    SameLayout(g, o);
    if o in g.renames {
      AliasOutputFacts(g, parts, o);
      AliasStaysWanted(g, parts, k + 1, o);
    } else {
      OutputStaysWanted(g, parts, k, k + 1, o);
    }
    ReturnsProduced(g, parts[k], Unmet(g, parts, k + 1), o);
  }

  /** The producer of an input returns it, and so does every partition in between that takes it in. */
  lemma PassedAlong(g: Graph, parts: seq<Partition>, k: nat, m: nat, i: nat, n: Name)
    requires ScheduleOk(g, parts) && k <= m < i < |parts|
    requires n in Outs(parts[k]) && n in Inputs(g, parts[i]) && !IsNoneLayout(g, n)
    requires m == k || n in Inputs(g, parts[m])
    ensures n in Outputs(g, parts[m], Unmet(g, parts, m + 1))
  {
    hide ScheduleOk, NodeOk, IsNoneLayout, Ins, FlowOk, FlowAt, Unmet, PartOk;
    FlowAtOk(g, parts, i);
    InsReal(g, FlowAt(g, parts, i), parts[i], n);
    StaysWanted(g, parts, k, m + 1, i, n);
    if m == k {
      ReturnsProduced(g, parts[m], Unmet(g, parts, m + 1), n);
    } else {
      FlowAtOk(g, parts, m);
      InsLive(g, FlowAt(g, parts, i), parts[i], n);
      AliveStays(g, parts, m + 1, i, n);
      FlowAtNext(g, parts, m);
      AliveNotFreed(g, FlowAt(g, parts, m), parts[m], n);
      ReturnsKept(g, parts[m], Unmet(g, parts, m + 1), n);
    }
  }

  lemma FlowAtNext(g: Graph, parts: seq<Partition>, m: nat)
    requires Resolved(g) && m < |parts|
    ensures FlowAt(g, parts, m + 1) == After(g, FlowAt(g, parts, m), parts[m], |parts[m]|)
  {
  }

  lemma ReturnsKept(g: Graph, p: Partition, unmet: set<Name>, n: Name)
    requires Resolved(g) && n in Inputs(g, p) && n !in Frees(p) && n !in g.renames && !IsNoneLayout(g, n)
    ensures n in Outputs(g, p, unmet)
  {
    hide IsNoneLayout, Ins;
    assert n in Outs(p) * unmet + (set m | m in Ins(g, p) && m in g.nodes && m !in Frees(p));
    assert Real(g, n) == n;
  }

  /** A schedule that runs and still has a stray free: the second partition frees a buffer the first never allocated. */
  lemma StrayFreeHappens()
    ensures var g := Graph({"y"}, map["t" := Unallocated, "y" := Allocated], map["t" := 0, "y" := 1], map[], {});
            var parts := [[Node({"t"}, {}, {})], [Node({"y"}, {}, {"t"})]];
            && ScheduleOk(g, parts) && "t" in Inputs(g, parts[1]) && "t" !in Bound(g, parts, 1)
  {
    var g := Graph({"y"}, map["t" := Unallocated, "y" := Allocated], map["t" := 0, "y" := 1], map[], {});
    var p0, p1 := [Node({"t"}, {}, {})], [Node({"y"}, {}, {"t"})];
    var parts := [p0, p1];
    assert Outs(p0) == {"t"} by { assert "t" in p0[0].outputs; }
    assert Outs(p1) == {"y"} by { assert "y" in p1[0].outputs; }
    assert Produced(parts) == {"t", "y"} by { assert "t" in Outs(parts[0]) && "y" in Outs(parts[1]); }
    assert GraphInputs(g, parts) == {};
    assert Allocates(g, {"t"}) == {};
    assert "y" in Allocates(g, {"y"}) by { assert Real(g, "y") == "y"; }
    assert FlowAt(g, parts, 0) == Flow({}, {});
    assert After(g, FlowAt(g, parts, 0), p0, 0) == Flow({}, {});
    assert FlowAt(g, parts, 1) == Flow({"t"}, {}) by { assert After(g, FlowAt(g, parts, 0), p0, 1) == Flow({"t"}, {}); }
    assert After(g, FlowAt(g, parts, 1), p1, 0) == Flow({"t"}, {});
    assert FlowAt(g, parts, 2) == NodeFlow(g, Flow({"t"}, {}), p1[0]) by {
      assert FlowAt(g, parts, 2) == After(g, FlowAt(g, parts, 1), p1, 1);
    }
    assert NodeOk(g, Flow({}, {}), p0[0]) && NodeOk(g, Flow({"t"}, {}), p1[0]);
    assert ScheduleOk(g, parts);
    assert "t" in Frees(p1) by { assert "t" in p1[0].lastUsage; }
    InputsBoundIff(g, parts, 1, "t");
  }
}
