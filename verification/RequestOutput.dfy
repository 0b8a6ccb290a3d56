/**
 Merging the streamed outputs of a request. Each output carries some completions; one with a known index is
 merged into (or replaces) the completion of that index, one with a new index is appended.
 */
module RequestOutput {
  import opened Lists

  datatype Completion<L> = Completion(index: int, text: string, tokens: seq<int>, logprobs: Option<seq<L>>,
                                      tail: Tail)

  /** The fields a merge simply takes over. */
  datatype Tail = Tail(cumulative: Option<real>, finishReason: Option<string>, stopReason: Option<string>)

  datatype Output<L> = Output(finished: bool, kvParams: Option<int>, outputs: seq<Completion<L>>)

  /** A merge fails when log probabilities arrive for a completion that keeps none. */
  predicate Refused<L>(c: Completion<L>, d: Completion<L>) {
    d.logprobs.Some? && d.logprobs.value != [] && c.logprobs.None?
  }

  function Merged<L>(c: Completion<L>, d: Completion<L>): Completion<L>
    requires !Refused(c, d)
  {
    var logprobs := if d.logprobs.Some? &&
        d.logprobs.value != [] then Some(c.logprobs.value + d.logprobs.value) else c.logprobs;
    Completion(c.index, c.text + d.text, c.tokens + d.tokens, logprobs, d.tail)
  }

  /** The position of an index among the completions, or the end. */
  function PlaceOf<L>(outs: seq<Completion<L>>, index: int): (i: nat)
    ensures i <= |outs| && (i < |outs| ==> outs[i].index == index) && forall k :: 0 <= k < i ==> outs[k].index != index
  {
    if outs == [] then 0 else if outs[0].index == index then 0 else 1 + PlaceOf(outs[1..], index)
  }

  /** The completions after a merge, and whether it went through. */
  datatype Result<L> = Result(outs: seq<Completion<L>>, ok: bool)

  /** A refused merge has already extended text and tokens when it fails. */
  function MergeOne<L>(outs: seq<Completion<L>>, d: Completion<L>, aggregate: bool): Result<L> {
    var i := PlaceOf(outs, d.index);
    if i == |outs| then Result(outs + [d], true)
    else if !aggregate then Result(outs[i := d], true)
    else if Refused(outs[i], d) then
      Result(outs[i := outs[i].(text := outs[i].text + d.text, tokens := outs[i].tokens + d.tokens)], false)
    else Result(outs[i := Merged(outs[i], d)], true)
  }

  /** All completions in order, up to the first that is refused. */
  function MergeAll<L>(outs: seq<Completion<L>>, ds: seq<Completion<L>>, aggregate: bool): Result<L> {
    if ds == [] then Result(outs, true)
    else
      var r := MergeAll(outs, ds[..|ds| - 1], aggregate);
      if !r.ok then r else MergeOne(r.outs, ds[|ds| - 1], aggregate)
  }

  // ------------------------------------------------------------------ what a whole stream says

  /** The indices in order of first arrival. */
  function Arrivals<L>(ds: seq<Completion<L>>): seq<int> {
    if ds == [] then []
    else
      var r := Arrivals(ds[..|ds| - 1]);
      if ds[|ds| - 1].index in r then r else r + [ds[|ds| - 1].index]
  }

  function Texts<L>(ds: seq<Completion<L>>, index: int): string {
    if ds == [] then ""
    else Texts(ds[..|ds| - 1], index) + if ds[|ds| - 1].index == index then ds[|ds| - 1].text else ""
  }

  function Tokens<L>(ds: seq<Completion<L>>, index: int): seq<int> {
    if ds == [] then []
    else Tokens(ds[..|ds| - 1], index) + if ds[|ds| - 1].index == index then ds[|ds| - 1].tokens else []
  }

  function Logprobs<L>(ds: seq<Completion<L>>, index: int): seq<L> {
    if ds == [] then []
    else Logprobs(ds[..|ds| - 1], index) +
         if ds[|ds| - 1].index == index && ds[|ds| - 1].logprobs.Some? then ds[|ds| - 1].logprobs.value else []
  }

  /** The latest completion of an index. */
  function Latest<L>(ds: seq<Completion<L>>, index: int): Option<Completion<L>> {
    if ds == [] then None
    else if ds[|ds| - 1].index == index then Some(ds[|ds| - 1]) else Latest(ds[..|ds| - 1], index)
  }

  /** The first completion of an index. */
  function First<L>(ds: seq<Completion<L>>, index: int): Option<Completion<L>> {
    if ds == [] then None
    else match First(ds[..|ds| - 1], index)
      case Some(c) => Some(c)
      case None => if ds[|ds| - 1].index == index then Some(ds[|ds| - 1]) else None
  }

  ghost predicate Unique<L>(outs: seq<Completion<L>>) {
    forall i, j :: 0 <= i < j < |outs| ==> outs[i].index != outs[j].index
  }

  function Indices<L>(outs: seq<Completion<L>>): seq<int> { seq(|outs|, i requires 0 <= i < |outs| => outs[i].index) }

  /** What one index of an aggregated stream must hold. */
  ghost predicate Streamed<L>(c: Completion<L>, ds: seq<Completion<L>>) {
    && c.text == Texts(ds, c.index) && c.tokens == Tokens(ds, c.index)
    && First(ds, c.index).Some? && Latest(ds, c.index).Some? && c.tail == Latest(ds, c.index).value.tail
    && c.logprobs == if First(ds, c.index).value.logprobs.Some? then Some(Logprobs(ds, c.index)) else None
  }

  ghost predicate Aggregated<L>(outs: seq<Completion<L>>, ds: seq<Completion<L>>) {
    && Indices(outs) == Arrivals(ds) && NoDup(Arrivals(ds))
    && forall i :: 0 <= i < |outs| ==> Streamed(outs[i], ds)
  }

  /** The stream can be aggregated: a completion that starts without log probabilities never gets any. */
  ghost predicate Consistent<L>(ds: seq<Completion<L>>) {
    forall x :: First(ds, x).Some? && First(ds, x).value.logprobs.None? ==> Logprobs(ds, x) == []
  }

  /** Log probabilities for an index whose first completion had none. */
  ghost predicate LateLogprobs<L>(ds: seq<Completion<L>>, d: Completion<L>) {
    First(ds, d.index).Some? && First(ds, d.index).value.logprobs.None? && d.logprobs.Some? && d.logprobs.value != []
  }

  // ------------------------------------------------------------------ one more completion

  lemma StreamedOther<L>(c: Completion<L>, ds: seq<Completion<L>>, d: Completion<L>)
    requires c.index != d.index && Streamed(c, ds)
    ensures Streamed(c, ds + [d])
  {
    assert (ds + [d])[..|ds|] == ds;
    assert Logprobs(ds + [d], c.index) == Logprobs(ds, c.index);
  }

  lemma {:induction false} FirstIffArrived<L>(ds: seq<Completion<L>>, x: int)
    ensures First(ds, x).Some? <==> x in Arrivals(ds)
    ensures Latest(ds, x).Some? <==> x in Arrivals(ds)
    ensures x !in Arrivals(ds) ==> Texts(ds, x) == "" && Tokens(ds, x) == [] && Logprobs(ds, x) == []
  {
    if ds != [] { FirstIffArrived(ds[..|ds| - 1], x); }
  }

  lemma StreamedNew<L>(ds: seq<Completion<L>>, d: Completion<L>)
    requires d.index !in Arrivals(ds)
    ensures Streamed(d, ds + [d])
  {
    assert (ds + [d])[..|ds|] == ds;
    FirstIffArrived(ds, d.index);
    assert d.logprobs.Some? ==> Logprobs(ds + [d], d.index) == d.logprobs.value;
  }

  lemma StreamedMore<L>(c: Completion<L>, ds: seq<Completion<L>>, d: Completion<L>)
    requires c.index == d.index && Streamed(c, ds) && !Refused(c, d)
    ensures Streamed(Merged(c, d), ds + [d])
  {
    assert (ds + [d])[..|ds|] == ds;
    if d.logprobs.None? || d.logprobs.value == [] { assert Logprobs(ds + [d], d.index) == Logprobs(ds, d.index); }
  }

  lemma ArrivalsNext<L>(ds: seq<Completion<L>>, d: Completion<L>)
    ensures Arrivals(ds + [d]) == if d.index in Arrivals(ds) then Arrivals(ds) else Arrivals(ds) + [d.index]
  {
    assert (ds + [d])[..|ds|] == ds;
  }

  lemma PlaceIffArrived<L>(outs: seq<Completion<L>>, xs: seq<int>, index: int)
    requires Indices(outs) == xs
    ensures PlaceOf(outs, index) < |outs| <==> index in xs
  {
    var i := PlaceOf(outs, index);
    assert forall k :: 0 <= k < |outs| ==> xs[k] == outs[k].index;
    if i < |outs| { assert xs[i] == index; }
  }

  lemma AggregateNew<L>(outs: seq<Completion<L>>, ds: seq<Completion<L>>, d: Completion<L>)
    requires Aggregated(outs, ds) && d.index !in Arrivals(ds)
    ensures Aggregated(outs + [d], ds + [d])
  {
    hide Streamed, Arrivals, NoDup;
    ArrivalsNext(ds, d);
    NoDupSnoc(Arrivals(ds), d.index);
    var more := outs + [d];
    assert Indices(more) == Indices(outs) + [d.index];
    forall i | 0 <= i < |more| ensures Streamed(more[i], ds + [d]) {
      if i < |outs| {
        assert Indices(outs)[i] == outs[i].index;
        StreamedOther(outs[i], ds, d);
      } else {
        StreamedNew(ds, d);
      }
    }
  }

  lemma AggregateMore<L>(outs: seq<Completion<L>>, ds: seq<Completion<L>>, d: Completion<L>, at: nat)
    requires Aggregated(outs, ds) && at < |outs| && outs[at].index == d.index && !Refused(outs[at], d)
    ensures Aggregated(outs[at := Merged(outs[at], d)], ds + [d])
  {
    hide Streamed;
    ArrivalsNext(ds, d);
    assert Arrivals(ds)[at] == d.index;
    var more := outs[at := Merged(outs[at], d)];
    assert Indices(more) == Indices(outs);
    forall i | 0 <= i < |more| ensures Streamed(more[i], ds + [d]) {
      if i == at {
        StreamedMore(outs[at], ds, d);
      } else {
        assert Arrivals(ds)[i] == outs[i].index;
        StreamedOther(outs[i], ds, d);
      }
    }
  }

  /** An aggregated stream stays one with every completion that is not refused. */
  lemma AggregateStep<L>(outs: seq<Completion<L>>, ds: seq<Completion<L>>, d: Completion<L>)
    requires Aggregated(outs, ds) && MergeOne(outs, d, true).ok
    ensures Aggregated(MergeOne(outs, d, true).outs, ds + [d])
  {
    hide Streamed;
    PlaceIffArrived(outs, Arrivals(ds), d.index);
    var at := PlaceOf(outs, d.index);
    if at == |outs| { AggregateNew(outs, ds, d); } else { AggregateMore(outs, ds, d, at); }
  }

  // ------------------------------------------------------------------ whole streams

  lemma {:induction false} MergeConcat<L>(outs: seq<Completion<L>>, a: seq<Completion<L>>, b: seq<Completion<L>>,
                                          aggregate: bool)
    ensures MergeAll(outs, a + b, aggregate) ==
            var r := MergeAll(outs, a, aggregate);
            if r.ok then MergeAll(r.outs, b, aggregate) else r
  {
    if b == [] {
      assert a + b == a;
    } else {
      var n := |b| - 1;
      MergeConcat(outs, a, b[..n], aggregate);
      assert (a + b)[..|a + b| - 1] == a + b[..n];
    }
  }

  /** An output with unique indices is what its own completions make of nothing. */
  lemma {:induction false} StartIsStream<L>(outs: seq<Completion<L>>, aggregate: bool)
    requires Unique(outs)
    ensures MergeAll([], outs, aggregate) == Result(outs, true)
  {
    if outs != [] {
      var n := |outs| - 1;
      StartIsStream(outs[..n], aggregate);
      assert PlaceOf(outs[..n], outs[n].index) == n;
      assert outs == outs[..n] + [outs[n]];
    }
  }

  lemma NothingAggregated<L>()
    ensures Aggregated<L>([], [])
  {
  }

  lemma {:induction false} AggregateFromNothing<L>(ds: seq<Completion<L>>)
    requires MergeAll([], ds, true).ok
    ensures Aggregated(MergeAll([], ds, true).outs, ds)
  {
    hide Aggregated, MergeOne;
    if ds == [] {
      NothingAggregated<L>();
    } else {
      var n := |ds| - 1;
      AggregateFromNothing(ds[..n]);
      assert ds == ds[..n] + [ds[n]];
      AggregateStep(MergeAll([], ds[..n], true).outs, ds[..n], ds[n]);
    }
  }

  /**
   Aggregating any stream from an output with unique indices: indices in order of first arrival, and at each the
   texts, tokens and log probabilities of all its completions in order.
   */
  lemma StreamAggregated<L>(start: seq<Completion<L>>, ds: seq<Completion<L>>)
    requires Unique(start) && MergeAll(start, ds, true).ok
    ensures Aggregated(MergeAll(start, ds, true).outs, start + ds)
  {
    StartIsStream(start, true);
    MergeConcat([], start, ds, true);
    AggregateFromNothing(start + ds);
  }

  lemma ConsistentNext<L>(ds: seq<Completion<L>>, d: Completion<L>)
    ensures Consistent(ds + [d]) <==>
              Consistent(ds) && !LateLogprobs(ds, d)
  {
    var all := ds + [d];
    assert all[..|ds|] == ds;
    forall x ensures x != d.index ==> First(all, x) == First(ds, x) && Logprobs(all, x) == Logprobs(ds, x) { }
    FirstIffArrived(ds, d.index);
    var f := First(ds, d.index);
    var added := if d.logprobs.Some? then d.logprobs.value else [];
    assert Logprobs(all, d.index) == Logprobs(ds, d.index) + added;
    if f.Some? { assert First(all, d.index) == f; }
    if Consistent(all) {
      forall x | First(ds, x).Some? && First(ds, x).value.logprobs.None? ensures Logprobs(ds, x) == [] {
        assert First(all, x) == First(ds, x);
        assert Logprobs(all, x) == [];
      }
    }
  }

  /** Aggregation goes through exactly on consistent streams. */
  lemma {:induction false} AggregatesIff<L>(ds: seq<Completion<L>>)
    ensures MergeAll([], ds, true).ok <==> Consistent(ds)
  {
    hide Consistent;
    if ds == [] {
      NothingConsistent<L>();
    } else {
      var n := |ds| - 1;
      AggregatesIff(ds[..n]);
      ConsistentNext(ds[..n], ds[n]);
      assert ds == ds[..n] + [ds[n]];
      if MergeAll([], ds[..n], true).ok {
        AggregateFromNothing(ds[..n]);
        RefusedIff(MergeAll([], ds[..n], true).outs, ds[..n], ds[n]);
      }
    }
  }

  lemma NothingConsistent<L>()
    ensures Consistent<L>([])
  {
  }

  lemma RefusedIff<L>(outs: seq<Completion<L>>, ds: seq<Completion<L>>, d: Completion<L>)
    requires Aggregated(outs, ds)
    ensures MergeOne(outs, d, true).ok <==>
              !LateLogprobs(ds, d)
  {
    PlaceIffArrived(outs, Arrivals(ds), d.index);
    FirstIffArrived(ds, d.index);
    var at := PlaceOf(outs, d.index);
    if at < |outs| { assert Streamed(outs[at], ds); }
  }

  lemma StreamAggregatesIff<L>(start: seq<Completion<L>>, ds: seq<Completion<L>>)
    requires Unique(start)
    ensures MergeAll(start, ds, true).ok <==> Consistent(start + ds)
  {
    StartIsStream(start, true);
    MergeConcat([], start, ds, true);
    AggregatesIff(start + ds);
  }

  /** A stream that fails: a completion starts without log probabilities and some arrive for it later. */
  lemma LateLogprobsRefused<L>(c: Completion<L>, text: string, tokens: seq<int>, logprobs: seq<L>, tail: Tail)
    requires c.logprobs.None? && logprobs != []
    ensures !MergeAll([c], [Completion(c.index, text, tokens, Some(logprobs), tail)], true).ok
  {
    var d := Completion(c.index, text, tokens, Some(logprobs), tail);
    var stream := [c] + [d];
    assert stream[..1] == [c] && [c][..0] == [];
    assert First([c], c.index) == Some(c);
    assert First(stream, c.index) == Some(c) && Logprobs(stream, c.index) == Logprobs([c], c.index) + logprobs;
    StreamAggregatesIff([c], [d]);
  }

  /** What a failed merge leaves: the refused completion's text and tokens are in, nothing else of it is. */
  ghost predicate HalfMerged<L>(outs: seq<Completion<L>>, before: seq<Completion<L>>, ds: seq<Completion<L>>) {
    && |outs| == |before|
    && forall i :: 0 <= i < |outs| ==>
         && outs[i].index == before[i].index && outs[i].tail == before[i].tail && outs[i].logprobs == before[i].logprobs
         && outs[i].text == Texts(ds, outs[i].index) && outs[i].tokens == Tokens(ds, outs[i].index)
  }

  lemma HalfMergedOne<L>(before: seq<Completion<L>>, ds: seq<Completion<L>>, d: Completion<L>)
    requires Aggregated(before, ds) && !MergeOne(before, d, true).ok
    ensures HalfMerged(MergeOne(before, d, true).outs, before, ds + [d])
  {
    var outs, at := MergeOne(before, d, true).outs, PlaceOf(before, d.index);
    assert (ds + [d])[..|ds|] == ds;
    forall i | 0 <= i < |outs|
      ensures outs[i].text == Texts(ds + [d], outs[i].index) && outs[i].tokens == Tokens(ds + [d], outs[i].index)
    {
      assert Streamed(before[i], ds) && Indices(before)[i] == before[i].index && Indices(before)[at] == d.index;
    }
  }

  /** Aggregation stops at the first completion that brings late log probabilities, half way through merging it. */
  lemma {:induction false} StoppedHalfWay<L>(ds: seq<Completion<L>>) returns (n: nat)
    requires !MergeAll([], ds, true).ok
    ensures n < |ds| && Consistent(ds[..n]) && LateLogprobs(ds[..n], ds[n])
    ensures HalfMerged(MergeAll([], ds, true).outs, MergeAll([], ds[..n], true).outs, ds[..n + 1])
  {
    hide MergeOne, HalfMerged, Consistent, LateLogprobs;
    var k := |ds| - 1;
    if MergeAll([], ds[..k], true).ok {
      n := k;
      AggregatesIff(ds[..k]);
      AggregateFromNothing(ds[..k]);
      RefusedIff(MergeAll([], ds[..k], true).outs, ds[..k], ds[k]);
      assert ds[..k] + [ds[k]] == ds[..k + 1];
      HalfMergedOne(MergeAll([], ds[..k], true).outs, ds[..k], ds[k]);
    } else {
      n := StoppedHalfWay(ds[..k]);
      assert ds[..k][..n] == ds[..n] && ds[..k][..n + 1] == ds[..n + 1];
    }
  }

  // ------------------------------------------------------------------ replacing instead

  ghost predicate Replaced<L>(outs: seq<Completion<L>>, ds: seq<Completion<L>>) {
    && Indices(outs) == Arrivals(ds) && NoDup(Arrivals(ds))
    && forall i :: 0 <= i < |outs| ==> Latest(ds, outs[i].index) == Some(outs[i])
  }

  lemma LatestNext<L>(ds: seq<Completion<L>>, d: Completion<L>, x: int)
    ensures Latest(ds + [d], x) == if x == d.index then Some(d) else Latest(ds, x)
  {
    assert (ds + [d])[..|ds|] == ds;
  }

  lemma ReplaceStep<L>(outs: seq<Completion<L>>, ds: seq<Completion<L>>, d: Completion<L>)
    requires Replaced(outs, ds)
    ensures MergeOne(outs, d, false).ok && Replaced(MergeOne(outs, d, false).outs, ds + [d])
  {
    hide Latest, Arrivals;
    PlaceIffArrived(outs, Arrivals(ds), d.index);
    ArrivalsNext(ds, d);
    NoDupSnoc(Arrivals(ds), d.index);
    var more, at := MergeOne(outs, d, false).outs, PlaceOf(outs, d.index);
    forall i | 0 <= i < |more| ensures Latest(ds + [d], more[i].index) == Some(more[i]) {
      LatestNext(ds, d, more[i].index);
      if more[i].index != d.index {
        assert i < |outs| && more[i] == outs[i];
      } else if i < |outs| {
        assert Arrivals(ds)[i] == outs[i].index && Arrivals(ds)[at] == outs[at].index;
      }
    }
    assert PlaceOf(outs, d.index) < |outs| ==> Indices(more) == Indices(outs);
  }

  lemma {:induction false} ReplaceFromNothing<L>(ds: seq<Completion<L>>)
    ensures MergeAll([], ds, false).ok && Replaced(MergeAll([], ds, false).outs, ds)
  {
    if ds != [] {
      var n := |ds| - 1;
      ReplaceFromNothing(ds[..n]);
      assert ds == ds[..n] + [ds[n]];
      ReplaceStep(MergeAll([], ds[..n], false).outs, ds[..n], ds[n]);
    }
  }

  /** Without aggregation nothing is refused and each index holds its latest completion. */
  lemma StreamReplaced<L>(start: seq<Completion<L>>, ds: seq<Completion<L>>)
    requires Unique(start)
    ensures MergeAll(start, ds, false).ok && Replaced(MergeAll(start, ds, false).outs, start + ds)
  {
    StartIsStream(start, false);
    MergeConcat([], start, ds, false);
    ReplaceFromNothing(start + ds);
  }

  // ------------------------------------------------------------------ the merge as it runs

  class Request<L> {
    var finished: bool
    var kvParams: Option<int>
    var outputs: seq<Completion<L>>

    constructor (first: Output<L>)
      ensures finished == first.finished && kvParams == first.kvParams && outputs == first.outputs
    {
      finished, kvParams, outputs := first.finished, first.kvParams, first.outputs;
    }

    /** Merges one more output. On a refusal the assertion fails with the work done so far in place. */
    method Add(next: Output<L>, aggregate: bool) returns (ok: bool)
      modifies this
      ensures finished == (old(finished) || next.finished) && kvParams == next.kvParams
      ensures Result(outputs, ok) == MergeAll(old(outputs), next.outputs, aggregate)
    {
      hide MergeOne;
      finished := finished || next.finished;
      kvParams := next.kvParams;
      ok := true;
      for k := 0 to |next.outputs|
        invariant finished == (old(finished) || next.finished) && kvParams == next.kvParams && ok
        invariant Result(outputs, true) == MergeAll(old(outputs), next.outputs[..k], aggregate)
      {
        assert next.outputs[..k + 1][..k] == next.outputs[..k];
        ok := AddOne(next.outputs[k], aggregate);
        if !ok {
          MergeConcat(old(outputs), next.outputs[..k + 1], next.outputs[k + 1..], aggregate);
          assert next.outputs[..k + 1] + next.outputs[k + 1..] == next.outputs;
          return;
        }
      }
      assert next.outputs[..|next.outputs|] == next.outputs;
    }

    /** A whole stream of outputs, stopping at the first failure. */
    method AddEach(nexts: seq<Output<L>>, aggregate: bool) returns (ok: bool)
      modifies this
      ensures ok <==> MergeAll(old(outputs), AllCompletions(nexts), aggregate).ok
      ensures ok ==> outputs == MergeAll(old(outputs), AllCompletions(nexts), aggregate).outs
      ensures ok ==> (finished <==> old(finished) || exists o :: o in nexts && o.finished)
      ensures ok ==> kvParams == if nexts == [] then old(kvParams) else nexts[|nexts| - 1].kvParams
    {
      hide MergeAll;
      ok := true;
      MergeNothing(outputs, aggregate);
      for k := 0 to |nexts|
        invariant ok && Result(outputs, true) == MergeAll(old(outputs), AllCompletions(nexts[..k]), aggregate)
        invariant finished <==> old(finished) || exists i :: 0 <= i < k && nexts[i].finished
        invariant kvParams == if k == 0 then old(kvParams) else nexts[k - 1].kvParams
      {
        assert nexts[..k + 1][..k] == nexts[..k];
        MergeConcat(old(outputs), AllCompletions(nexts[..k]), nexts[k].outputs, aggregate);
        ok := Add(nexts[k], aggregate);
        if !ok {
          CompletionsSplit(nexts, k + 1);
          MergeConcat(old(outputs), AllCompletions(nexts[..k + 1]), AllCompletions(nexts[k + 1..]), aggregate);
          return;
        }
      }
      assert nexts[..|nexts|] == nexts;
    }

    /** The inner search: the first completion with the same index, or the end. */
    method AddOne(d: Completion<L>, aggregate: bool) returns (ok: bool)
      modifies this`outputs
      ensures Result(outputs, ok) == MergeOne(old(outputs), d, aggregate)
    {
      ok := true;
      var i := 0;
      while i < |outputs|
        invariant i <= |outputs| && outputs == old(outputs) && ok
        invariant forall k :: 0 <= k < i ==> outputs[k].index != d.index
      {
        if outputs[i].index == d.index {
          PlaceIs(outputs, d.index, i);
          var c := outputs[i];
          if aggregate {
            outputs := outputs[i := c.(text := c.text + d.text, tokens := c.tokens + d.tokens)];
            if d.logprobs.Some? && d.logprobs.value != [] {
              if c.logprobs.None? {
                return false;
              }
              outputs := outputs[i := outputs[i].(logprobs := Some(c.logprobs.value + d.logprobs.value))];
            }
            outputs := outputs[i := outputs[i].(tail := d.tail)];
          } else {
            outputs := outputs[i := d];
          }
          return;
        }
        i := i + 1;
      }
      PlaceIs(outputs, d.index, i);
      outputs := outputs + [d];
    }
  }

  function AllCompletions<L>(nexts: seq<Output<L>>): seq<Completion<L>> {
    if nexts == [] then [] else AllCompletions(nexts[..|nexts| - 1]) + nexts[|nexts| - 1].outputs
  }

  lemma CompletionsSnoc<L>(nexts: seq<Output<L>>, last: Output<L>)
    ensures AllCompletions(nexts + [last]) == AllCompletions(nexts) + last.outputs
  {
    assert (nexts + [last])[..|nexts|] == nexts;
  }

  lemma Regroup<L>(x: seq<L>, y: seq<L>, z: seq<L>)
    ensures (x + y) + z == x + (y + z)
  {
  }

  lemma {:induction false} CompletionsConcat<L>(a: seq<Output<L>>, b: seq<Output<L>>)
    ensures AllCompletions(a + b) == AllCompletions(a) + AllCompletions(b)
  {
    if b == [] {
      assert a + b == a;
    } else {
      hide AllCompletions;
      var init, last := b[..|b| - 1], b[|b| - 1];
      CompletionsConcat(a, init);
      assert b == init + [last] && a + b == (a + init) + [last];
      CompletionsSnoc(a + init, last);
      CompletionsSnoc(init, last);
      Regroup(AllCompletions(a), AllCompletions(init), last.outputs);
    }
  }

  lemma CompletionsSplit<L>(nexts: seq<Output<L>>, k: nat)
    requires k <= |nexts|
    ensures AllCompletions(nexts) == AllCompletions(nexts[..k]) + AllCompletions(nexts[k..])
  {
    hide AllCompletions;
    assert nexts == nexts[..k] + nexts[k..];
    CompletionsConcat(nexts[..k], nexts[k..]);
  }

  lemma MergeNothing<L>(outs: seq<Completion<L>>, aggregate: bool)
    ensures MergeAll(outs, [], aggregate) == Result(outs, true) && AllCompletions<L>([]) == []
  {
  }

  lemma {:induction false} PlaceIs<L>(outs: seq<Completion<L>>, index: int, i: nat)
    requires i <= |outs| && (forall k :: 0 <= k < i ==> outs[k].index != index) &&
             (i < |outs| ==> outs[i].index == index)
    ensures PlaceOf(outs, index) == i
  {
    if i > 0 { PlaceIs(outs[1..], index, i - 1); }
  }
}
