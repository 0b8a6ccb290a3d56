/**
 Log probabilities of a request kept in six flat lists instead of a list of dictionaries. Dictionaries are
 modelled with their insertion order: a repeated key keeps its place and takes the later value.
 */
module FlatLogprobs {
  import opened Arithmetic
  import opened Lists

  datatype Logprob = Logprob(logprob: real, rank: Option<int>, decoded: Option<string>)

  datatype Cell = Cell(token: int, value: Logprob)

  type Dict = seq<Cell>

  function PutAt(d: Dict, c: Cell): (i: nat)
    ensures i <= |d| && (i < |d| ==> d[i].token == c.token) &&
            (i == |d| ==> forall k :: 0 <= k < |d| ==> d[k].token != c.token)
  {
    if d == [] then 0 else if d[0].token == c.token then 0 else 1 + PutAt(d[1..], c)
  }

  function Put(d: Dict, c: Cell): Dict {
    var i := PutAt(d, c);
    if i < |d| then d[i := c] else d + [c]
  }

  /** The dictionary a comprehension over `cells` builds. */
  function FromCells(cells: seq<Cell>): Dict {
    if cells == [] then [] else Put(FromCells(cells[..|cells| - 1]), cells[|cells| - 1])
  }

  ghost predicate UniqueKeys(d: Dict) { forall i, j :: 0 <= i < j < |d| ==> d[i].token != d[j].token }

  /** A dictionary's own items build it again. */
  lemma {:induction false} FromCellsSame(d: Dict)
    requires UniqueKeys(d)
    ensures FromCells(d) == d
  {
    if d != [] {
      var n := |d| - 1;
      FromCellsSame(d[..n]);
      assert PutAt(d[..n], d[n]) == n;
      assert d == d[..n] + [d[n]];
    }
  }

  /** The last cell of a key is the one that counts. */
  lemma {:induction false} LastWins(cells: seq<Cell>, i: nat)
    requires i < |cells| && forall k :: i < k < |cells| ==> cells[k].token != cells[i].token
    ensures cells[i] in FromCells(cells)
  {
    var n := |cells| - 1;
    var init := FromCells(cells[..n]);
    var at := PutAt(init, cells[n]);
    if i == n {
      assert FromCells(cells)[at] == cells[n];
    } else {
      LastWins(cells[..n], i);
      var k :| 0 <= k < |init| && init[k] == cells[i];
      assert FromCells(cells)[k] == cells[i];
    }
  }

  /** Where a key first appears among the cells. */
  function FirstCell(cells: seq<Cell>, token: int): (i: nat)
    ensures i <= |cells| && (i < |cells| ==> cells[i].token == token)
    ensures forall k :: 0 <= k < i ==> cells[k].token != token
  {
    if cells == [] then 0 else if cells[0].token == token then 0 else 1 + FirstCell(cells[1..], token)
  }

  lemma FirstCellIs(cells: seq<Cell>, token: int, i: nat)
    requires i <= |cells| && (i < |cells| ==> cells[i].token == token)
    requires forall k :: 0 <= k < i ==> cells[k].token != token
    ensures FirstCell(cells, token) == i
  {
  }

  lemma FirstCellStays(cells: seq<Cell>, c: Cell, token: int)
    ensures FirstCell(cells + [c], token) ==
            if FirstCell(cells, token) < |cells| || c.token == token then FirstCell(cells, token) else |cells| + 1
  {
    hide FirstCell;
    var i, more := FirstCell(cells, token), cells + [c];
    assert forall k :: 0 <= k < |cells| ==> more[k] == cells[k];
    FirstCellIs(more, token, if i < |cells| || c.token == token then i else |cells| + 1);
  }

  /** The keys stand in the order in which they first appear. */
  ghost predicate KeysInOrder(d: Dict, cells: seq<Cell>) {
    && (forall i :: 0 <= i < |d| ==> FirstCell(cells, d[i].token) < |cells|)
    && (forall i, j :: 0 <= i < j < |d| ==> FirstCell(cells, d[i].token) < FirstCell(cells, d[j].token))
    && forall k :: 0 <= k < |cells| ==> HasKey(d, cells[k].token)
  }

  ghost predicate HasKey(d: Dict, token: int) { exists i :: 0 <= i < |d| && d[i].token == token }

  /** A comprehension lists every key once, where it first appeared, so that a later value does not move it. */
  lemma {:induction false} FromCellsInOrder(cells: seq<Cell>)
    ensures KeysInOrder(FromCells(cells), cells) && UniqueKeys(FromCells(cells))
  {
    if cells != [] {
      var n := |cells| - 1;
      FromCellsInOrder(cells[..n]);
      assert cells == cells[..n] + [cells[n]];
      PutInOrder(FromCells(cells[..n]), cells[..n], cells[n]);
    }
  }

  lemma PutInOrder(d: Dict, cells: seq<Cell>, c: Cell)
    requires KeysInOrder(d, cells) && UniqueKeys(d)
    ensures KeysInOrder(Put(d, c), cells + [c]) && UniqueKeys(Put(d, c))
  {
    hide FirstCell;
    var more, put, at := cells + [c], Put(d, c), PutAt(d, c);
    forall i | 0 <= i < |d|
      ensures FirstCell(more, d[i].token) == FirstCell(cells, d[i].token) && put[i].token == d[i].token
    {
      FirstCellStays(cells, c, d[i].token);
    }
    FirstCellStays(cells, c, c.token);
    if at == |d| { assert FirstCell(cells, c.token) == |cells| by { NoSuchKey(d, cells, c.token); } }
    forall k | 0 <= k < |more| ensures HasKey(put, more[k].token) {
      if k < |cells| {
        assert HasKey(d, cells[k].token);
        var i :| 0 <= i < |d| && d[i].token == cells[k].token;
        assert put[i].token == more[k].token;
      } else {
        assert put[at].token == c.token;
      }
    }
  }

  lemma NoSuchKey(d: Dict, cells: seq<Cell>, token: int)
    requires KeysInOrder(d, cells) && forall i :: 0 <= i < |d| ==> d[i].token != token
    ensures FirstCell(cells, token) == |cells|
  {
    forall k | 0 <= k < |cells| ensures cells[k].token != token {
      assert HasKey(d, cells[k].token);
    }
  }

  // ------------------------------------------------------------------ flat lists as a list of dictionaries

  /** Positions lie one after the other in the flat lists, perhaps with gaps. */
  ghost predicate Laid(starts: seq<nat>, ends: seq<nat>, size: nat) {
    && |starts| == |ends|
    && (forall i :: 0 <= i < |starts| ==> starts[i] <= ends[i] <= size)
    && forall i, j :: 0 <= i < j < |starts| ==> ends[i] <= starts[j]
  }

  ghost function Contents(starts: seq<nat>, ends: seq<nat>, cells: seq<Cell>): (r: seq<Dict>)
    requires Laid(starts, ends, |cells|)
    ensures |r| == |starts|
  {
    seq(|starts|, i requires 0 <= i < |starts| => FromCells(cells[starts[i]..ends[i]]))
  }

  lemma ContentsAppendAt(starts: seq<nat>, ends: seq<nat>, cells: seq<Cell>, more: seq<Cell>, i: nat)
    requires Laid(starts, ends, |cells|) && Laid(starts + [|cells|], ends + [|cells| + |more|], |cells + more|) &&
             i <= |starts|
    ensures Contents(starts + [|cells|], ends + [|cells| + |more|], cells + more)[i] ==
            if i < |starts| then Contents(starts, ends, cells)[i] else FromCells(more)
  {
    hide FromCells, Laid, Contents;
    ContentsAt(starts + [|cells|], ends + [|cells| + |more|], cells + more, i);
    if i < |starts| {
      ContentsAt(starts, ends, cells, i);
      SamePart(cells, more, starts[i], ends[i]);
    } else {
      assert |starts| == |ends| by { LaidSizes(starts, ends, |cells|); }
      assert (cells + more)[|cells|..|cells| + |more|] == more;
    }
  }

  lemma LaidSizes(starts: seq<nat>, ends: seq<nat>, size: nat)
    requires Laid(starts, ends, size)
    ensures |starts| == |ends|
  {
  }

  /** Adding a position at the end leaves the others alone. */
  lemma ContentsAppend(starts: seq<nat>, ends: seq<nat>, cells: seq<Cell>, more: seq<Cell>)
    requires Laid(starts, ends, |cells|)
    ensures Laid(starts + [|cells|], ends + [|cells| + |more|], |cells + more|)
    ensures Contents(starts + [|cells|], ends + [|cells| + |more|], cells + more) ==
            Contents(starts, ends, cells) + [FromCells(more)]
  {
    hide FromCells, Laid, Contents;
    LaidAppend(starts, ends, |cells|, |more|);
    var before, after := Contents(starts, ends, cells),
        Contents(starts + [|cells|], ends + [|cells| + |more|], cells + more);
    forall i | 0 <= i < |after| ensures after[i] == (before + [FromCells(more)])[i] {
      ContentsAppendAt(starts, ends, cells, more, i);
    }
  }

  lemma ContentsAt(starts: seq<nat>, ends: seq<nat>, cells: seq<Cell>, i: nat)
    requires Laid(starts, ends, |cells|) && i < |starts|
    ensures |starts| == |ends| && starts[i] <= ends[i] <= |cells|
    ensures Contents(starts, ends, cells)[i] == FromCells(cells[starts[i]..ends[i]])
  {
  }

  lemma LaidAppend(starts: seq<nat>, ends: seq<nat>, size: nat, more: nat)
    requires Laid(starts, ends, size)
    ensures Laid(starts + [size], ends + [size + more], size + more)
  {
  }

  lemma SamePart(a: seq<Cell>, b: seq<Cell>, i: nat, j: nat)
    requires i <= j <= |a|
    ensures (a + b)[i..j] == a[i..j]
  {
  }

  /** Every `step`-th position from `lo` up to `hi`. */
  function Positions(lo: nat, hi: nat, step: nat): (ps: seq<nat>)
    requires step > 0
    ensures forall k :: 0 <= k < |ps| ==> lo <= ps[k]
    ensures Increasing(ps, hi)
    ensures ps == [] <==> lo >= hi
    decreases hi - lo
  {
    if lo >= hi then [] else [lo] + Positions(lo + step, hi, step)
  }

  lemma {:induction false} PositionsMeaning(lo: nat, hi: nat, step: nat, x: nat)
    requires step > 0
    ensures x in Positions(lo, hi, step) <==> lo <= x < hi && (x - lo) % step == 0
    decreases hi - lo
  {
    hide Increasing, Positions;
    NoPositions(lo, hi, step);
    if lo < hi {
      PositionsMeaning(lo + step, hi, step, x);
      PositionsIn(lo, hi, step, x);
      if x >= lo + step { ModShift(x - lo, step); } else if lo <= x { ModSmall(x - lo, step); }
    }
  }

  lemma NoPositions(lo: nat, hi: nat, step: nat)
    requires step > 0
    ensures lo >= hi ==> Positions(lo, hi, step) == []
  {
  }

  lemma PositionsIn(lo: nat, hi: nat, step: nat, x: nat)
    requires step > 0 && lo < hi
    ensures x in Positions(lo, hi, step) <==> x == lo || x in Positions(lo + step, hi, step)
  {
    hide Increasing;
  }

  lemma ModSmall(d: nat, step: nat)
    requires d < step
    ensures d % step == d
  {
  }

  function Pick<T>(s: seq<T>, ps: seq<nat>): (r: seq<T>)
    requires forall k :: 0 <= k < |ps| ==> ps[k] < |s|
    ensures |r| == |ps|
  {
    seq(|ps|, k requires 0 <= k < |ps| => s[ps[k]])
  }

  function Shift(s: seq<nat>, base: nat): seq<nat>
    requires forall k :: 0 <= k < |s| ==> base <= s[k]
  {
    seq(|s|, k requires 0 <= k < |s| => s[k] - base)
  }

  ghost predicate Increasing(ps: seq<nat>, n: nat) {
    (forall k :: 0 <= k < |ps| ==> ps[k] < n) && forall j, k :: 0 <= j < k < |ps| ==> ps[j] < ps[k]
  }

  lemma InnerPart(cells: seq<Cell>, lo: nat, hi: nat, i: nat, j: nat)
    requires lo <= i <= j <= hi <= |cells|
    ensures cells[lo..hi][i - lo..j - lo] == cells[i..j]
  {
    var part := cells[lo..hi];
    forall k | 0 <= k < j - i ensures part[i - lo..j - lo][k] == cells[i..j][k] {
      assert part[i - lo..j - lo][k] == part[i - lo + k] == cells[i + k];
    }
  }

  /** The picked positions lie one after the other between the first start and the last end. */
  lemma LaidPick(starts: seq<nat>, ends: seq<nat>, size: nat, ps: seq<nat>)
    requires Laid(starts, ends, size) && ps != [] && Increasing(ps, |starts|)
    ensures var lo, hi := starts[ps[0]], ends[ps[|ps| - 1]];
            && lo <= hi <= size
            && (forall k :: 0 <= k < |ps| ==> lo <= starts[ps[k]] <= ends[ps[k]] <= hi)
            && Laid(Shift(Pick(starts, ps), lo), Shift(Pick(ends, ps), lo), hi - lo)
  {
    var lo, hi := starts[ps[0]], ends[ps[|ps| - 1]];
    forall k | 0 <= k < |ps| ensures lo <= starts[ps[k]] <= ends[ps[k]] <= hi {
      if 0 < k { assert ps[0] < ps[k]; }
      if k < |ps| - 1 { assert ps[k] < ps[|ps| - 1]; }
    }
  }

  /** Cutting the flat lists to the picked positions and shifting the indices picks the same dictionaries. */
  lemma ContentsPick(starts: seq<nat>, ends: seq<nat>, cells: seq<Cell>, ps: seq<nat>)
    requires Laid(starts, ends, |cells|) && ps != [] && Increasing(ps, |starts|)
    ensures var lo, hi := starts[ps[0]], ends[ps[|ps| - 1]];
            && lo <= hi <= |cells|
            && (forall k :: 0 <= k < |ps| ==> lo <= starts[ps[k]] && ends[ps[k]] <= hi && lo <= ends[ps[k]])
            && Laid(Shift(Pick(starts, ps), lo), Shift(Pick(ends, ps), lo), hi - lo)
            && Contents(Shift(Pick(starts, ps), lo), Shift(Pick(ends, ps), lo), cells[lo..hi]) ==
               Pick(Contents(starts, ends, cells), ps)
  {
    hide FromCells, Laid, Contents;
    LaidSizes(starts, ends, |cells|);
    var lo, hi := starts[ps[0]], ends[ps[|ps| - 1]];
    LaidPick(starts, ends, |cells|, ps);
    var part := cells[lo..hi];
    var from, to := Shift(Pick(starts, ps), lo), Shift(Pick(ends, ps), lo);
    forall k | 0 <= k < |ps| ensures Contents(from, to, part)[k] == Contents(starts, ends, cells)[ps[k]] {
      ContentsAt(from, to, part, k);
      ContentsAt(starts, ends, cells, ps[k]);
      InnerPart(cells, lo, hi, starts[ps[k]], ends[ps[k]]);
    }
  }

  // ------------------------------------------------------------------ the two ways to append a position

  /** `zip` of four lists stops at the shortest. */
  function Zip(tokens: seq<int>, logprobs: seq<real>, ranks: seq<int>, decoded: seq<Option<string>>): (r: seq<Cell>)
    ensures |r| == Min(Min(|tokens|, |logprobs|), Min(|ranks|, |decoded|))
  {
    seq(Min(Min(|tokens|, |logprobs|), Min(|ranks|, |decoded|)),
        i requires 0 <= i < Min(Min(|tokens|, |logprobs|), Min(|ranks|, |decoded|)) =>
          Cell(tokens[i], Logprob(logprobs[i], Some(ranks[i]), decoded[i])))
  }

  /** The sampled token's rank, then 1, 2, ... for the top candidates; -1 asks for all of them. */
  function Ranks(rank: int, numLogprobs: int, count: nat): seq<int> {
    var n := if numLogprobs == -1 then count else numLogprobs;
    [rank] + if n > 0 then seq(n, i => i + 1) else []
  }

  /** What the list-of-dictionaries branch appends. */
  function NextDict(tokens: seq<int>, logprobs: seq<real>, decoded: seq<Option<string>>, rank: int,
                    numLogprobs: int): Dict {
    FromCells(Zip(tokens, logprobs, Ranks(rank, numLogprobs, |logprobs|), decoded))
  }

  /** The four columns of a dictionary whose ranks are all known build it again. */
  lemma ZipOfColumns(d: Dict)
    requires forall i :: 0 <= i < |d| ==> d[i].value.rank.Some?
    ensures Zip(seq(|d|, i requires 0 <= i < |d| => d[i].token),
                seq(|d|, i requires 0 <= i < |d| => d[i].value.logprob),
                seq(|d|, i requires 0 <= i < |d| => d[i].value.rank.value),
                seq(|d|, i requires 0 <= i < |d| => d[i].value.decoded)) == d
  {
  }

  /**
   The next position lists the sampled token with its own rank and behind it the candidates with ranks from one up: as
   many as were asked for, or all there are for -1, if the tokens are distinct.
   */
  lemma NextDictRanks(tokens: seq<int>, logprobs: seq<real>, decoded: seq<Option<string>>, rank: int, numLogprobs: int)
    requires numLogprobs >= -1 && |tokens| == |logprobs| == |decoded| && NoDup(tokens)
    ensures var d, asked := NextDict(tokens, logprobs, decoded, rank, numLogprobs), numLogprobs + 1;
            && |d| == (if numLogprobs == -1 then |tokens| else Min(|tokens|, asked))
            && forall i :: 0 <= i < |d| ==>
                 d[i] == Cell(tokens[i], Logprob(logprobs[i], Some(if i == 0 then rank else i), decoded[i]))
  {
    var cells := Zip(tokens, logprobs, Ranks(rank, numLogprobs, |logprobs|), decoded);
    FromCellsSame(cells);
  }

  // ------------------------------------------------------------------ the container

  /** Python's reading of the bounds of a slice with a positive step. */
  function Bound(b: Option<int>, default: nat, n: nat): (r: nat)
    requires default <= n
    ensures r <= n
  {
    match b
    case None => default
    case Some(i) =>
      var j := if i < 0 then i + n else i;
      if j < 0 then 0 else if j > n then n else j
  }

  /** A slice from `i` on starts with item `i` if there is one, with the first if `i` lies before it, or not at all. */
  lemma SliceStartsAtItem(i: int, n: nat, step: nat)
    requires step > 0
    ensures var ps := Positions(Bound(Some(i), 0, n), Bound(None, n, n), step);
            && (ps == [] <==> n == 0 || i >= n)
            && (ps != [] ==> ps[0] == if 0 <= i then i else if n + i >= 0 then n + i else 0)
  {
  }

  /** A slice up to `i` ends before the item `i`, counted from the end if negative. */
  lemma SliceStopsBeforeItem(i: int, n: nat, x: nat)
    ensures x in Positions(Bound(None, 0, n), Bound(Some(i), n, n), 1) <==>
            x < n && (if i < 0 then x < n + i else x < i)
  {
    PositionsMeaning(Bound(None, 0, n), Bound(Some(i), n, n), 1, x);
  }

  /** None reads as an empty dictionary. */
  function Dicts(positions: seq<Option<Dict>>): seq<Dict> {
    seq(|positions|, i requires 0 <= i < |positions| => if positions[i].Some? then positions[i].value else [])
  }

  class Flat {
    var starts: seq<nat>
    var ends: seq<nat>
    var tokens: seq<int>
    var logprobs: seq<real>
    var ranks: seq<Option<int>>
    var decoded: seq<Option<string>>

    ghost predicate Valid()
      reads this
    {
      |tokens| == |logprobs| == |ranks| == |decoded| && Laid(starts, ends, |logprobs|)
    }

    ghost function Cells(): (r: seq<Cell>)
      requires |tokens| == |logprobs| == |ranks| == |decoded|
      reads this
      ensures |r| == |logprobs|
    {
      seq(|logprobs|, i requires 0 <= i < |logprobs| reads this
                        requires |tokens| == |logprobs| == |ranks| == |decoded| =>
        Cell(tokens[i], Logprob(logprobs[i], ranks[i], decoded[i])))
    }

    /** The list of dictionaries this container stands for. */
    ghost function View(): seq<Dict>
      requires Valid()
      reads this
    {
      Contents(starts, ends, Cells())
    }

    constructor ()
      ensures Valid() && View() == []
    {
      starts, ends, tokens, logprobs, ranks, decoded := [], [], [], [], [], [];
    }

    /** One entry at the end of each of the four value lists. */
    method AddCell(c: Cell)
      requires |tokens| == |logprobs| == |ranks| == |decoded|
      modifies this`tokens, this`logprobs, this`ranks, this`decoded
      ensures |tokens| == |logprobs| == |ranks| == |decoded| && Cells() == old(Cells()) + [c]
    {
      ghost var before := Cells();
      tokens := tokens + [c.token];
      logprobs := logprobs + [c.value.logprob];
      ranks := ranks + [c.value.rank];
      decoded := decoded + [c.value.decoded];
      assert Cells() == before + [c];
    }

    /** A missing position and an empty dictionary both append an empty one. */
    method Append(position: Option<Dict>)
      requires Valid() && (position.Some? ==> UniqueKeys(position.value))
      modifies this
      ensures Valid() && View() == old(View()) + [if position.Some? then position.value else []]
    {
      hide FromCells, Contents, Laid;
      starts := starts + [|logprobs|];
      ghost var before := old(Cells());
      ghost var d: Dict := if position.Some? then position.value else [];
      if position.Some? && position.value != [] {
        for i := 0 to |position.value|
          invariant starts == old(starts) + [old(|logprobs|)] && ends == old(ends)
          invariant |tokens| == |logprobs| == |ranks| == |decoded|
          invariant Cells() == before + d[..i]
        {
          AddCell(position.value[i]);
          assert d[..i + 1] == d[..i] + [d[i]];
        }
      }
      assert d[..|d|] == d;
      assert Cells() == before + d;
      ends := ends + [|logprobs|];
      ContentsAppend(old(starts), old(ends), before, d);
      FromCellsSame(d);
      assert starts == old(starts) + [|before|] && ends == old(ends) + [|before| + |d|] && Cells() == before + d;
    }

    /** Appends without building the dictionary; reading it back builds it. */
    method AppendFast(newTokens: seq<int>, newLogprobs: seq<real>, newRanks: seq<int>, newDecoded: seq<Option<string>>)
      requires Valid()
      modifies this
      ensures Valid() && View() == old(View()) + [FromCells(Zip(newTokens, newLogprobs, newRanks, newDecoded))]
    {
      hide FromCells, Contents, Laid;
      starts := starts + [|logprobs|];
      ghost var before := old(Cells());
      ghost var zipped := Zip(newTokens, newLogprobs, newRanks, newDecoded);
      var i := 0;
      while i < |newTokens| && i < |newLogprobs| && i < |newRanks| && i < |newDecoded|
        invariant i <= |zipped|
        invariant starts == old(starts) + [old(|logprobs|)] && ends == old(ends)
        invariant |tokens| == |logprobs| == |ranks| == |decoded|
        invariant Cells() == before + zipped[..i]
      {
        AddCell(Cell(newTokens[i], Logprob(newLogprobs[i], Some(newRanks[i]), newDecoded[i])));
        assert zipped[..i + 1] == zipped[..i] + [zipped[i]];
        i := i + 1;
      }
      assert zipped[..i] == zipped;
      ends := ends + [|logprobs|];
      ContentsAppend(old(starts), old(ends), before, zipped);
      assert starts == old(starts) + [|before|] && ends == old(ends) + [|before| + |zipped|] &&
             Cells() == before + zipped;
    }

    method Extend(positions: seq<Option<Dict>>)
      requires Valid() && forall p :: p in positions && p.Some? ==> UniqueKeys(p.value)
      modifies this
      ensures Valid() && View() == old(View()) + Dicts(positions)
    {
      ghost var added := Dicts(positions);
      for i := 0 to |positions|
        invariant Valid() && View() == old(View()) + added[..i]
      {
        Append(positions[i]);
      }
    }

    method Len() returns (n: nat)
      requires Valid()
      ensures n == |View()|
    {
      n := |starts|;
    }

    /** The dictionary of one position; a negative index counts from the end and one out of range fails. */
    method GetItem(index: int) returns (r: Option<Dict>)
      requires Valid()
      ensures r.None? <==> !(-|View()| <= index < |View()|)
      ensures r.Some? ==> r.value == View()[if index < 0 then index + |View()| else index]
    {
      var p := if index < 0 then index + |starts| else index;
      if p < 0 || p >= |starts| {
        return None;
      }
      var d: Dict := [];
      ghost var part := Cells()[starts[p]..ends[p]];
      for i := starts[p] to ends[p]
        invariant d == FromCells(part[..i - starts[p]])
      {
        assert part[..i + 1 - starts[p]][..i - starts[p]] == part[..i - starts[p]];
        assert part[i - starts[p]] == Cells()[i];
        d := Put(d, Cell(tokens[i], Logprob(logprobs[i], ranks[i], decoded[i])));
      }
      assert part[..ends[p] - starts[p]] == part;
      r := Some(d);
    }

    /** All positions in order. */
    method Iterate() returns (r: seq<Dict>)
      requires Valid()
      ensures r == View()
    {
      r := [];
      for i := 0 to |starts|
        invariant r == View()[..i]
      {
        var d := GetItem(i);
        r := r + [d.value];
      }
    }

    /** A slice with a positive step is a container of its own; an empty one fails. */
    method GetSlice(start: Option<int>, stop: Option<int>, step: nat) returns (r: Option<Flat>)
      requires Valid() && step > 0
      ensures var n := |View()|;
              var ps := Positions(Bound(start, 0, n), Bound(stop, n, n), step);
              && (r.None? <==> ps == [])
              && (r.Some? ==> fresh(r.value) && r.value.Valid() && r.value.View() == Pick(View(), ps))
    {
      hide FromCells, Contents, Laid, Positions, Bound;
      var n := |starts|;
      var ps := Positions(Bound(start, 0, n), Bound(stop, n, n), step);
      if ps == [] {
        return None;
      }
      ghost var all := Cells();
      LaidSizes(starts, ends, |all|);
      ContentsPick(starts, ends, all, ps);
      var lo, hi := starts[ps[0]], ends[ps[|ps| - 1]];
      var f := new Flat();
      f.starts, f.ends := Shift(Pick(starts, ps), lo), Shift(Pick(ends, ps), lo);
      f.tokens, f.logprobs := tokens[lo..hi], logprobs[lo..hi];
      f.ranks, f.decoded := ranks[lo..hi], decoded[lo..hi];
      assert f.Cells() == all[lo..hi] && Cells() == all;
      r := Some(f);
    }

    /** The flat branch of appending the next position agrees with the dictionary branch. */
    method AppendNext(newTokens: seq<int>, newLogprobs: seq<real>, newDecoded: seq<Option<string>>, rank: int,
                      numLogprobs: int)
      requires Valid()
      modifies this
      ensures Valid() && View() == old(View()) + [NextDict(newTokens, newLogprobs, newDecoded, rank, numLogprobs)]
    {
      var n := if numLogprobs == -1 then |newLogprobs| else numLogprobs;
      var newRanks := [rank] + if n > 0 then seq(n, i => i + 1) else [];
      AppendFast(newTokens, newLogprobs, newRanks, newDecoded);
    }
  }
}
