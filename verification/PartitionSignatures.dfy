/**
 Signatures of graph partitions. A backward pass computes, for every partition of a scheduled graph, the
 buffers it takes in, the ones it frees and the ones it returns. The wrapper that calls the partitions only
 ever sees what they return, so the pass is right when every call finds its inputs and the graph outputs
 are bound at the end. Names of in-place mutations are aliases of the real buffer they mutate.
 */
module PartitionSignatures {
  import opened Arithmetic
  import opened Lists

  type Name = string

  /** `Unallocated` is the layout of buffers that never exist; a mutation output stands for its real buffer. */
  datatype Layout = Allocated | Unallocated | MutationOutput

  datatype Node = Node(outputs: set<Name>, uses: set<Name>, lastUsage: set<Name>)

  type Partition = seq<Node>

  datatype Graph = Graph(
    outputs: set<Name>,
    buffers: map<Name, Layout>,
    nodes: map<Name, nat>,
    renames: map<Name, Name>,
    constants: set<Name>)

  datatype Signature = Signature(
    inputs: map<Name, nat>,
    returned: set<Name>,
    outputs: map<Name, nat>,
    deallocates: map<Name, bool>,
    skipCudagraph: bool,
    constants: set<Name>)

  /** Real names are never aliases themselves: the scheduler records them fully resolved. */
  predicate Resolved(g: Graph) {
    forall a :: a in g.renames ==> g.renames[a] !in g.renames
  }

  function Real(g: Graph, n: Name): Name {
    if n in g.renames then g.renames[n] else n
  }

  /** Whether a buffer is never allocated, following a mutation output to the buffer it mutates. */
  predicate IsNoneLayout(g: Graph, n: Name)
    requires Resolved(g)
    decreases if n in g.renames then 1 else 0
  {
    if n !in g.buffers then false
    else match g.buffers[n]
      case Allocated => false
      case Unallocated => true
      case MutationOutput => n !in g.renames || IsNoneLayout(g, g.renames[n])
  }

  // ------------------------------------------------------------------ the pass

  function Outs(p: Partition): set<Name> {
    set i, x | 0 <= i < |p| && x in p[i].outputs :: x
  }

  function Uses(p: Partition): set<Name> {
    set i, x | 0 <= i < |p| && x in p[i].uses :: x
  }

  function Frees(p: Partition): set<Name> {
    set i, x | 0 <= i < |p| && x in p[i].lastUsage :: x
  }

  /** What the partition takes in: what it uses or frees and does not produce, under real names. */
  function Ins(g: Graph, p: Partition): set<Name>
    requires Resolved(g)
  {
    (set x | x in Uses(p) && x !in Outs(p) && !IsNoneLayout(g, x) :: Real(g, x))
    + (set x | x in Frees(p) && x !in Outs(p) && x in g.nodes)
  }

  /** What it returns: what it produces and somebody still wants, and every input it does not free. */
  function Returned(g: Graph, p: Partition, unmet: set<Name>): set<Name>
    requires Resolved(g)
  {
    set x | x in Outs(p) * unmet + (set n | n in Ins(g, p) && n in g.nodes && n !in Frees(p)) :: Real(g, x)
  }

  function StillUnmet(g: Graph, p: Partition, unmet: set<Name>): set<Name>
    requires Resolved(g)
  {
    Ins(g, p) + (unmet - Returned(g, p, unmet))
  }

  /** `None` is the missing-key error raised when a returned name has no node. */
  function SignatureOf(g: Graph, p: Partition, unmet: set<Name>, skip: bool): Option<Signature>
    requires Resolved(g)
  {
    var ins := Ins(g, p);
    var returned := Returned(g, p, unmet);
    if exists n :: n in returned && !IsNoneLayout(g, n) && n !in g.nodes then None
    else Some(Signature(
      map n | n in ins && n in g.nodes :: g.nodes[n],
      returned,
      map n | n in returned && !IsNoneLayout(g, n) && n in g.nodes :: g.nodes[n],
      map n | n in ins && n in g.nodes :: n in Frees(p),
      skip,
      ins * g.constants))
  }

  lemma SignatureReturned(g: Graph, p: Partition, unmet: set<Name>, skip: bool)
    requires Resolved(g) && SignatureOf(g, p, unmet, skip).Some?
    ensures SignatureOf(g, p, unmet, skip).value.returned == Returned(g, p, unmet)
  {
  }

  /** Names wanted from the partitions before `i` by partition `i` and everything after it. */
  function Unmet(g: Graph, parts: seq<Partition>, i: nat): set<Name>
    requires Resolved(g) && i <= |parts|
    decreases |parts| - i
  {
    if i == |parts| then g.outputs else StillUnmet(g, parts[i], Unmet(g, parts, i + 1))
  }

  function SignatureAt(g: Graph, parts: seq<Partition>, i: nat, skip: bool): Option<Signature>
    requires Resolved(g) && i < |parts|
  {
    SignatureOf(g, parts[i], Unmet(g, parts, i + 1), skip)
  }

  // ------------------------------------------------------------------ the pass as it is run

  /** The `i`th signature returned: the two lists are walked from their ends together, stopping at the shorter one. */
  function Expected(g: Graph, parts: seq<Partition>, skips: seq<bool>, i: nat): Option<Signature>
    requires Resolved(g) && i < Min(|parts|, |skips|)
  {
    var n := Min(|parts|, |skips|);
    SignatureAt(g, parts, |parts| - n + i, skips[|skips| - n + i])
  }

  /** Every name a signature takes in or returns is bound to that name's own node, and every input is marked. */
  predicate OwnNodes(g: Graph, s: Signature) {
    && (forall n :: n in s.inputs ==> n in g.nodes && s.inputs[n] == g.nodes[n])
    && (forall n :: n in s.outputs ==> n in g.nodes && s.outputs[n] == g.nodes[n])
    && s.deallocates.Keys == s.inputs.Keys
  }

  /** The constants a partition reads or frees, under real names. */
  ghost function ConstantsOf(g: Graph, p: Partition): set<Name>
    requires Resolved(g)
  {
    set n | n in g.constants && n in Ins(g, p)
  }

  lemma SignaturePaired(g: Graph, parts: seq<Partition>, skips: seq<bool>, i: nat)
    requires Resolved(g) && i < Min(|parts|, |skips|) && Expected(g, parts, skips, i).Some?
    ensures var n, s := Min(|parts|, |skips|), Expected(g, parts, skips, i).value;
            && OwnNodes(g, s) && s.skipCudagraph == skips[|skips| - n + i]
            && s.constants == ConstantsOf(g, parts[|parts| - n + i])
  {
    hide IsNoneLayout, Ins, Returned, Unmet;
  }

  /** Backward loop over the partitions, threading the unmet names. */
  method GetSignatures(g: Graph, parts: seq<Partition>, skips: seq<bool>) returns (r: Option<seq<Signature>>)
    requires Resolved(g)
    ensures r.Some? <==> forall i :: 0 <= i < Min(|parts|, |skips|) ==> Expected(g, parts, skips, i).Some?
    ensures r.Some? ==> |r.value| == Min(|parts|, |skips|)
    ensures r.Some? ==> forall i :: 0 <= i < |r.value| ==> Expected(g, parts, skips, i) == Some(r.value[i])
    ensures r.Some? ==> forall i :: 0 <= i < |r.value| ==> OwnNodes(g, r.value[i])
    ensures r.Some? && |parts| == |skips| ==> forall i :: 0 <= i < |r.value| ==> r.value[i].skipCudagraph == skips[i]
    ensures r.Some? && |parts| == |skips| ==>
              forall i :: 0 <= i < |r.value| ==> r.value[i].constants == ConstantsOf(g, parts[i])
  {
    hide IsNoneLayout, Ins, Returned, SignatureOf;
    var n := Min(|parts|, |skips|);
    var signatures: seq<Signature> := [];
    var unmet := g.outputs;
    for k := n downto 0
      invariant |signatures| == n - k && unmet == Unmet(g, parts, |parts| - n + k)
      invariant forall i :: k <= i < n ==> Expected(g, parts, skips, i) == Some(signatures[n - 1 - i])
    {
      var p := parts[|parts| - n + k];
      var s := SignatureOf(g, p, unmet, skips[|skips| - n + k]);
      assert s == Expected(g, parts, skips, k);
      if s.None? {
        return None;
      }
      SignatureReturned(g, p, unmet, skips[|skips| - n + k]);
      signatures := signatures + [s.value];
      unmet := Ins(g, p) + (unmet - s.value.returned);
    }
    r := Some(seq(|signatures|, i requires 0 <= i < |signatures| => signatures[|signatures| - 1 - i]));
    forall i | 0 <= i < n
      ensures var skip := skips[|skips| - n + i];
              var p := parts[|parts| - n + i];
              OwnNodes(g, r.value[i]) && r.value[i].skipCudagraph == skip && r.value[i].constants == ConstantsOf(g, p)
    {
      SignaturePaired(g, parts, skips, i);
    }
  }

  // ------------------------------------------------------------------ the schedule before partitioning

  /** Names produced so far (or given as graph inputs), and real buffers alive. */
  datatype Flow = Flow(seen: set<Name>, live: set<Name>)

  /** Real buffers a node brings to life or writes through an alias. */
  function Allocates(g: Graph, outputs: set<Name>): set<Name>
    requires Resolved(g)
  {
    set x | x in outputs && !IsNoneLayout(g, x) :: Real(g, x)
  }

  function NodeFlow(g: Graph, f: Flow, n: Node): Flow
    requires Resolved(g)
  {
    Flow(f.seen + n.outputs, (f.live + Allocates(g, n.outputs)) - n.lastUsage)
  }

  function After(g: Graph, f: Flow, p: Partition, j: nat): Flow
    requires Resolved(g) && j <= |p|
  {
    if j == 0 then f else NodeFlow(g, After(g, f, p, j - 1), p[j - 1])
  }

  function FlowAt(g: Graph, parts: seq<Partition>, i: nat): Flow
    requires Resolved(g) && i <= |parts|
  {
    if i == 0 then Start(g, parts) else After(g, FlowAt(g, parts, i - 1), parts[i - 1], |parts[i - 1]|)
  }

  function Produced(parts: seq<Partition>): set<Name> {
    set i, x | 0 <= i < |parts| && x in Outs(parts[i]) :: x
  }

  function GraphInputs(g: Graph, parts: seq<Partition>): set<Name> {
    g.nodes.Keys - Produced(parts)
  }

  function Start(g: Graph, parts: seq<Partition>): Flow {
    Flow(GraphInputs(g, parts), GraphInputs(g, parts))
  }

  /**
   A node runs: what it uses exists and is alive, what it frees is alive or was never allocated, what it makes is new.
   */
  ghost predicate NodeOk(g: Graph, f: Flow, n: Node)
    requires Resolved(g)
  {
    && (forall x :: x in n.uses && x in g.nodes ==> x in f.seen || x in n.outputs)
    && (forall x :: x in n.uses && x !in n.outputs && !IsNoneLayout(g, x) && Real(g, x) in g.nodes ==>
          x in g.nodes && Real(g, x) in f.live)
    && (forall x :: x in n.lastUsage && x in g.nodes ==>
          x !in g.renames && (x in f.live || x in Allocates(g, n.outputs) ||
              (IsNoneLayout(g, x) && x in f.seen + n.outputs)))
    && (forall x :: x in n.outputs ==> x in g.nodes && x !in f.seen)
    && (forall x :: x in n.outputs && x in g.renames ==> Mutates(g, n, g.renames[x]))
  }

  /** A node that produces an alias of `target` uses `target`, under whatever name it has so far. */
  ghost predicate Mutates(g: Graph, n: Node, target: Name)
    requires Resolved(g)
  {
    && target in g.nodes
    && exists u ::
         u in n.uses && u !in n.outputs && Real(g, u) == target && (IsNoneLayout(g, u) <==> IsNoneLayout(g, target))
  }

  /** Aliases share the layout of the buffer they mutate; graph inputs are always allocated. */
  ghost predicate GraphOk(g: Graph, parts: seq<Partition>) {
    && Resolved(g)
    && (forall a :: a in g.renames ==> IsNoneLayout(g, a) == IsNoneLayout(g, g.renames[a]))
    && (forall x :: x in GraphInputs(g, parts) ==> x !in g.buffers && x !in g.renames)
    && (forall a :: a in g.renames && a in g.nodes ==> g.renames[a] in g.nodes)
  }

  /** The unpartitioned schedule runs and ends with its outputs alive. */
  ghost predicate ScheduleOk(g: Graph, parts: seq<Partition>) {
    && GraphOk(g, parts)
    && (forall i, j :: 0 <= i < |parts| && 0 <= j < |parts[i]| ==>
       NodeOk(g, After(g, FlowAt(g, parts, i), parts[i], j), parts[i][j]))
    && (forall o :: o in g.outputs && !IsNoneLayout(g, o) ==>
          o in FlowAt(g, parts, |parts|).seen && Real(g, o) in FlowAt(g, parts, |parts|).live)
  }
}
