/**
 Memory planning over the lines of generated wrapper code: planning lines at the end that allocate nothing the
 graph returns are dropped, then a stack of planning states follows the subgraphs the lines enter and leave.
 */
module MemoryPlan {
  import opened Lists

  datatype Line = Planning(name: string) | Enter | Exit | Other

  datatype Failure = PopFromEmpty | NoState | StatesLeft(count: nat)

  /** The kept lines and, for each planning line, the state it was planned with. */
  datatype Outcome = Planned(kept: seq<Line>, states: map<nat, nat>) | Failed(why: Failure)

  predicate Pointless(l: Line, outs: set<string>) { l.Planning? && l.name !in outs }

  /** The longest tail of planning lines none of which the graph returns is dropped. */
  function Trim(lines: seq<Line>, outs: set<string>): (kept: seq<Line>)
    ensures kept <= lines
    ensures forall i :: |kept| <= i < |lines| ==> lines[i].Planning? && lines[i].name !in outs
    ensures kept != [] && kept[|kept| - 1].Planning? ==> kept[|kept| - 1].name in outs
  {
    if lines == [] || !Pointless(lines[|lines| - 1], outs) then lines else Trim(lines[..|lines| - 1], outs)
  }

  // ------------------------------------------------------------------ the stack

  /** The open states before line `i`, named by when they were opened; none once a state was missing. */
  ghost function Stack(lines: seq<Line>, i: nat): Option<seq<nat>>
    requires i <= |lines|
  {
    if i == 0 then Some([0])
    else match Stack(lines, i - 1)
      case None => None
      case Some(st) =>
        match lines[i - 1]
        case Enter => Some(st + [i])
        case Exit => if st == [] then None else Some(st[..|st| - 1])
        case Planning(_) => if st == [] then None else Some(st)
        case Other => Some(st)
  }

  /** How deep the lines before `i` have gone; the outermost code is at depth one. */
  ghost function Depth(lines: seq<Line>, i: nat): int
    requires i <= |lines|
  {
    if i == 0 then 1
    else Depth(lines, i - 1) + match lines[i - 1] case Enter => 1 case Exit => -1 case Planning(_) => 0 case Other => 0
  }

  /** No line leaves more than was entered, and every planning line has a state to plan with. */
  ghost predicate Covered(lines: seq<Line>, n: nat) {
    n <= |lines| && forall i :: 0 <= i < n ==> LineOk(lines, i)
  }

  ghost predicate LineOk(lines: seq<Line>, i: nat)
    requires i < |lines|
  {
    Depth(lines, i + 1) >= 0 && (lines[i].Planning? ==> Depth(lines, i) >= 1)
  }

  /** The stack exists exactly as long as the depth allows, and is as deep as that. */
  lemma {:induction false} StackIff(lines: seq<Line>, i: nat)
    requires i <= |lines|
    ensures Stack(lines, i).Some? <==> Covered(lines, i)
    ensures Stack(lines, i).Some? ==> |Stack(lines, i).value| == Depth(lines, i)
  {
    if i > 0 {
      StackIff(lines, i - 1);
      if Covered(lines, i - 1) {
        assert Covered(lines, i) <==> LineOk(lines, i - 1);
      } else {
        var k :| 0 <= k < i - 1 && !LineOk(lines, k);
        assert !Covered(lines, i);
      }
    }
  }

  lemma {:induction false} StackIds(lines: seq<Line>, i: nat)
    requires i <= |lines| && Stack(lines, i).Some?
    ensures forall k :: 0 <= k < |Stack(lines, i).value| ==> Stack(lines, i).value[k] <= i
    ensures NoDup(Stack(lines, i).value)
  {
    if i > 0 {
      StackIds(lines, i - 1);
      var st := Stack(lines, i - 1).value;
      if lines[i - 1].Enter? { NoDupSnoc(st, i); }
    }
  }

  lemma {:induction false} StackDefined(lines: seq<Line>, i: nat, j: nat)
    requires i <= j <= |lines| && Stack(lines, j).Some?
    ensures Stack(lines, i).Some?
    decreases j
  {
    if i < j { StackDefined(lines, i, j - 1); }
  }

  /** A state that is not open now and was not opened later never comes back. */
  lemma {:induction false} NeverReopened(lines: seq<Line>, i: nat, j: nat, x: nat)
    requires i <= j <= |lines| && Stack(lines, j).Some? && Stack(lines, i).Some? && x <= i &&
             x !in Stack(lines, i).value
    ensures x !in Stack(lines, j).value
    decreases j
  {
    if i < j {
      StackDefined(lines, i, j - 1);
      NeverReopened(lines, i, j - 1, x);
    }
  }

  /** While the depth stays at least `d`, the first `d` open states stay the same. */
  lemma {:induction false} KeepsBottom(lines: seq<Line>, i: nat, j: nat, d: nat)
    requires i <= j <= |lines| && Stack(lines, j).Some?
    requires forall m :: i <= m <= j ==> Depth(lines, m) >= d
    ensures Stack(lines, i).Some? && d <= |Stack(lines, i).value| && d <= |Stack(lines, j).value|
    ensures Stack(lines, j).value[..d] == Stack(lines, i).value[..d]
    decreases j
  {
    StackDefined(lines, i, j);
    StackIff(lines, i);
    StackIff(lines, j);
    if i < j {
      StackDefined(lines, j - 1, j);
      KeepsBottom(lines, i, j - 1, d);
    }
  }

  // ------------------------------------------------------------------ who shares a state

  /** The lines between `i` and `j` stay inside the subgraph that holds `i`, and `j` is directly in it. */
  ghost predicate SameSubgraph(lines: seq<Line>, i: nat, j: nat) {
    i <= j < |lines| && Depth(lines, j) == Depth(lines, i) && forall m :: i <= m <= j ==>
        Depth(lines, m) >= Depth(lines, i)
  }

  ghost function StateOf(lines: seq<Line>, i: nat): nat
    requires i < |lines| && Stack(lines, i).Some? && Stack(lines, i).value != []
  {
    var st := Stack(lines, i).value; st[|st| - 1]
  }

  lemma SharedInside(lines: seq<Line>, i: nat, j: nat)
    requires i <= j < |lines| && Stack(lines, j).Some? && Stack(lines, i).Some?
    requires Stack(lines, i).value != [] && Stack(lines, j).value != [] && SameSubgraph(lines, i, j)
    ensures StateOf(lines, i) == StateOf(lines, j)
  {
    StackIff(lines, i);
    StackIff(lines, j);
    KeepsBottom(lines, i, j, Depth(lines, i));
    var a, b := Stack(lines, i).value, Stack(lines, j).value;
    assert a[..|a|] == a && b[..|b|] == b;
  }

  lemma NotSharedOutside(lines: seq<Line>, i: nat, j: nat)
    requires i <= j < |lines| && Stack(lines, j).Some? && Stack(lines, i).Some?
    requires Stack(lines, i).value != [] && Stack(lines, j).value != [] && !SameSubgraph(lines, i, j)
    ensures StateOf(lines, i) != StateOf(lines, j)
  {
    hide Stack, Depth;
    if m :| i <= m <= j && Depth(lines, m) < Depth(lines, i) {
      var first := FirstBelow(lines, i, m, Depth(lines, i));
      StackDefined(lines, first, j);
      Dropped(lines, i, first);
      NeverReopened(lines, first, j, StateOf(lines, i));
    } else {
      Deeper(lines, i, j);
    }
  }

  lemma Deeper(lines: seq<Line>, i: nat, j: nat)
    requires i <= j < |lines| && Stack(lines, j).Some? && Stack(lines, i).Some?
    requires Stack(lines, i).value != [] && Stack(lines, j).value != []
    requires Depth(lines, j) != Depth(lines, i) && forall m :: i <= m <= j ==> Depth(lines, m) >= Depth(lines, i)
    ensures StateOf(lines, i) != StateOf(lines, j)
  {
    hide Stack, Depth;
    var a, b, d := Stack(lines, i).value, Stack(lines, j).value, Depth(lines, i);
    StackIff(lines, i);
    StackIff(lines, j);
    StackIds(lines, j);
    KeepsBottom(lines, i, j, d);
    assert a[..d] == a && b[d - 1] == b[..d][d - 1];
    assert b[d - 1] != b[|b| - 1];
  }

  lemma FirstBelow(lines: seq<Line>, i: nat, m: nat, d: int) returns (k: nat)
    requires i <= m <= |lines| && Depth(lines, m) < d && Depth(lines, i) >= d
    ensures i < k <= m && Depth(lines, k) < d && forall p :: i <= p < k ==> Depth(lines, p) >= d
  {
    k := i;
    while Depth(lines, k) >= d
      invariant i <= k <= m && forall p :: i <= p < k ==> Depth(lines, p) >= d
      decreases m - k
    {
      k := k + 1;
    }
  }

  /** Leaving the subgraph closes its state. */
  lemma Dropped(lines: seq<Line>, i: nat, k: nat)
    requires i < k <= |lines| && i < |lines| && Stack(lines, k).Some? && Stack(lines, i).Some? &&
             Stack(lines, i).value != []
    requires Depth(lines, k) < Depth(lines, i) && forall p :: i <= p < k ==> Depth(lines, p) >= Depth(lines, i)
    ensures StateOf(lines, i) <= k && StateOf(lines, i) !in Stack(lines, k).value
  {
    var d := Depth(lines, i);
    StackDefined(lines, k - 1, k);
    StackIff(lines, i);
    StackIff(lines, k - 1);
    StackIds(lines, i);
    StackIds(lines, k - 1);
    KeepsBottom(lines, i, k - 1, d);
    var a, b := Stack(lines, i).value, Stack(lines, k - 1).value;
    assert lines[k - 1].Exit? && |b| == d;
    assert a[..d] == a && b[..d] == b;
    assert b[d - 1] == StateOf(lines, i);
  }

  /** Two planning lines share a planning state exactly when they lie in the same subgraph. */
  lemma SharedIff(lines: seq<Line>, i: nat, j: nat)
    requires i <= j < |lines| && Stack(lines, j).Some? && Stack(lines, i).Some?
    requires Stack(lines, i).value != [] && Stack(lines, j).value != []
    ensures StateOf(lines, i) == StateOf(lines, j) <==> SameSubgraph(lines, i, j)
  {
    if SameSubgraph(lines, i, j) { SharedInside(lines, i, j); } else { NotSharedOutside(lines, i, j); }
  }

  /** The final count of states does not notice an exit too many that an enter makes good later. */
  lemma ExitBeforeEnter()
    ensures var lines := [Exit, Enter]; Covered(lines, 2) && Depth(lines, 2) == 1 && Depth(lines, 1) == 0
  {
    var lines := [Exit, Enter];
    assert Depth(lines, 0) == 1 && Depth(lines, 1) == 0 && Depth(lines, 2) == 1;
    assert LineOk(lines, 0) && LineOk(lines, 1);
  }

  // ------------------------------------------------------------------ the pass

  /** The first line that has nothing open to leave or plan with. */
  ghost predicate FailsAt(lines: seq<Line>, i: nat) { i < |lines| && Covered(lines, i) && !LineOk(lines, i) }

  lemma FailsOnce(lines: seq<Line>, i: nat, j: nat)
    requires FailsAt(lines, i) && FailsAt(lines, j)
    ensures i == j
  {
  }

  /**
   Planning succeeds exactly when the kept lines are covered and end at depth one. Otherwise a planning line found
   no state, a line or the end popped an empty stack, or states were left over.
   */
  method PlanReuse(lines: seq<Line>, outs: set<string>) returns (r: Outcome)
    ensures r.Planned? <==>
            Covered(Trim(lines, outs), |Trim(lines, outs)|) && Depth(Trim(lines, outs), |Trim(lines, outs)|) == 1
    ensures r.Planned? ==> r.kept == Trim(lines, outs)
    ensures r.Planned? ==> forall i :: 0 <= i < |r.kept| && r.kept[i].Planning? ==>
              Stack(r.kept, i).Some? && Stack(r.kept, i).value != [] && i in r.states &&
                  r.states[i] == StateOf(r.kept, i)
    ensures r == Failed(NoState) <==> exists i: nat :: FailsAt(Trim(lines, outs), i) && Trim(lines, outs)[i].Planning?
    ensures r.Failed? && r.why.StatesLeft? <==>
              Covered(Trim(lines, outs), |Trim(lines, outs)|) && Depth(Trim(lines, outs), |Trim(lines, outs)|) > 1
    ensures r.Failed? && r.why.StatesLeft? ==> r.why.count == Depth(Trim(lines, outs), |Trim(lines, outs)|) - 1
  {
    hide Depth, LineOk;
    var kept := lines;
    while kept != [] && Pointless(kept[|kept| - 1], outs)
      invariant Trim(kept, outs) == Trim(lines, outs)
      decreases |kept|
    {
      kept := kept[..|kept| - 1];
    }
    var open: seq<nat>, states: map<nat, nat> := [0], map[];
    for i := 0 to |kept|
      invariant Stack(kept, i) == Some(open)
      invariant forall k :: 0 <= k < i && kept[k].Planning? ==>
                  Stack(kept, k).Some? && Stack(kept, k).value != [] && k in states && states[k] == StateOf(kept, k)
    {
      match kept[i] {
        case Planning(_) =>
          if open == [] {
            Uncovered(kept, i);
            return Failed(NoState);
          }
          states := states[i := open[|open| - 1]];
        case Enter =>
          open := open + [i + 1];
        case Exit =>
          if open == [] {
            Uncovered(kept, i);
            return Failed(PopFromEmpty);
          }
          open := open[..|open| - 1];
        case Other =>
      }
    }
    StackIff(kept, |kept|);
    CoveredNeverFails(kept);
    if open == [] {
      return Failed(PopFromEmpty);
    }
    open := open[..|open| - 1];
    if open != [] {
      return Failed(StatesLeft(|open|));
    }
    r := Planned(kept, states);
  }

  lemma Uncovered(lines: seq<Line>, i: nat)
    requires i < |lines| && Stack(lines, i).Some? && Stack(lines, i + 1).None?
    ensures !Covered(lines, |lines|) && FailsAt(lines, i)
    ensures forall j: nat :: FailsAt(lines, j) ==> j == i
  {
    hide Stack, Depth, LineOk;
    StackIff(lines, i);
    StackIff(lines, i + 1);
    assert Covered(lines, i + 1) <==> Covered(lines, i) && LineOk(lines, i);
    forall j: nat | FailsAt(lines, j) ensures j == i { FailsOnce(lines, i, j); }
  }

  lemma CoveredNeverFails(lines: seq<Line>)
    requires Covered(lines, |lines|)
    ensures forall j: nat :: !FailsAt(lines, j)
  {
  }
}
