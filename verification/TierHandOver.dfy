/**
 What a layer remembers about a sequence beside its blocks: that its prompt was handed over, and the selection to
 protect. Over every run both are decided by the history of calls alone: handing over twice is handing over once,
 whichever of the two hand-overs is used and whatever happened in between, until the sequence is released.
 */
module TierHandOver {
  import opened Lists
  import opened SlotMap
  import opened TierModel
  import opened TierTransparency
  import opened TierPlacement
  import opened TierSafety
  import opened TierAccounts
  import opened TierSuccess
  import opened TierService
  import opened TierDecodeLoop

  // ------------------------------------------------------------------ one operation

  ghost predicate HandsOver<T>(op: Op<T>, s: nat) { (op.OpTrim? || op.OpIngest?) && op.seqId == s }

  ghost predicate Releases<T>(op: Op<T>, s: nat) { op.OpRelease? && op.seqId == s }

  /** The marks and selections are as they were. */
  predicate SameNotes<T>(t: Tier<T>, u: Tier<T>) {
    t.trimmed == u.trimmed && t.prevSelected == u.prevSelected && t.mixture == u.mixture
  }

  lemma SpillNotes<T>(t: Tier<T>, victim: Key, slot: nat)
    requires Shaped(t) && slot < |t.gpu|
    ensures SameNotes(t, Spill(t, victim, slot).state)
  {
  }

  lemma PlaceNotes<T>(t: Tier<T>, key: Key, protected: set<Key>)
    requires Shaped(t)
    ensures SameNotes(t, Place(t, key, protected).state)
  {
    hide PoolOk, AllSized, Lru.Valid, Add, Spill;
    AddValid(t.lru, key, protected);
    if Add(t.lru, key, protected).Some? {
      var Added(lru, slot, evicted) := Add(t.lru, key, protected).value;
      if evicted.Some? { SpillNotes(t.(lru := lru), evicted.value, slot); }
    }
  }

  lemma WriteNotes<T>(t: Tier<T>, key: Key, kv: KV<T>)
    requires Shaped(t) && Sized(kv, t.blockSize)
    ensures SameNotes(t, Fill(t, key, kv).state) && SameNotes(t, WriteLive(t, key, kv).state)
  {
    hide PoolOk, AllSized, Lru.Valid, Place;
    PlaceShaped(t, key, {});
    PlaceNotes(t, key, {});
  }

  lemma AppendNotes<T>(t: Tier<T>, key: Key, offset: nat, kRow: T, vRow: T)
    requires Shaped(t) && offset < t.blockSize
    ensures SameNotes(t, AppendAt(t, key, offset, kRow, vRow).state)
  {
    hide PoolOk, Lru.Valid, Place;
    PlaceShaped(t, key, {});
    PlaceNotes(t, key, {});
  }

  lemma StageNotes<T>(t: Tier<T>, key: Key, rows: KV<T>)
    requires Shaped(t) && |rows.k| == |rows.v| <= t.blockSize
    ensures SameNotes(t, Stage(t, key, rows).state)
  {
    hide PoolOk, Lru.Valid, Place;
    PlaceShaped(t, key, {});
    PlaceNotes(t, key, {});
  }

  lemma EnsureOneNotes<T>(t: Tier<T>, key: Key)
    requires Shaped(t)
    ensures SameNotes(t, EnsureOne(t, key).state)
  {
    hide PoolOk, Lru.Valid, Place;
    if key !in t.lru.slot && key in Backing(t) {
      TakenShaped(t, key);
      var t0 := t.(cpuSlots := t.cpuSlots - {key});
      PlaceShaped(t0, key, ProtectedKeys(t, key.seqId));
      PlaceNotes(t0, key, ProtectedKeys(t, key.seqId));
    }
  }

  lemma {:induction false} PassNotes<T>(t: Tier<T>, keys: seq<Key>)
    requires Shaped(t)
    ensures SameNotes(t, EnsureAll(t, keys).state)
    decreases |keys|
  {
    hide PoolOk, AllSized, Lru.Valid, EnsureOne;
    if keys != [] {
      EnsureOneNotes(t, keys[0]);
      if EnsureOne(t, keys[0]).Ok? {
        EnsureOneShaped(t, keys[0]);
        PassNotes(EnsureOne(t, keys[0]).state, keys[1..]);
      }
    }
  }

  lemma {:induction false} GuessNotes<T>(t: Tier<T>, keys: seq<Key>)
    requires Shaped(t)
    ensures SameNotes(t, Prefetch(t, keys).state)
    decreases |keys|
  {
    hide PoolOk, AllSized, Lru.Valid, EnsureOne;
    if keys != [] {
      EnsureOneNotes(t, keys[0]);
      if EnsureOne(t, keys[0]).Ok? {
        EnsureOneShaped(t, keys[0]);
        var u := EnsureOne(t, keys[0]).state;
        DemotedShaped(u, keys[0]);
        GuessNotes(Demoted(u, keys[0]), keys[1..]);
      }
    }
  }

  lemma {:induction false} TrimFromNotes<T>(t: Tier<T>, s: nat, blocks: seq<KV<T>>, keepFrom: nat, b: nat)
    requires Shaped(t) && AllSized(blocks, t.blockSize) && b <= |blocks|
    ensures SameNotes(t, TrimFrom(t, s, blocks, keepFrom, b).state)
    decreases |blocks| - b
  {
    hide PoolOk, Lru.Valid, TrimBlock;
    if b < |blocks| {
      TrimBlockNotes(t, Key(s, b), blocks[b], b >= keepFrom);
      var r := TrimBlock(t, Key(s, b), blocks[b], b >= keepFrom);
      if r.Ok? {
        TrimBlockShaped(t, Key(s, b), blocks[b], b >= keepFrom);
        TrimFromNotes(r.state, s, blocks, keepFrom, b + 1);
      }
    }
  }

  lemma TrimBlockNotes<T>(t: Tier<T>, key: Key, kv: KV<T>, kept: bool)
    requires Shaped(t) && Sized(kv, t.blockSize)
    ensures SameNotes(t, TrimBlock(t, key, kv, kept).state)
  {
    hide PoolOk, AllSized, Lru.Valid, Add, Mirror;
    if kept {
      AddValid(t.lru, key, {});
      if Add(t.lru, key, {}).Some? && t.writeThrough {
        var a := Add(t.lru, key, {}).value;
        if a.evicted.None? { MirrorNotes(Written(t.(lru := a.lru), a.slot, kv, key.block), key, kv); }
      }
    } else if t.writeThrough {
      MirrorNotes(t, key, kv);
    }
  }

  lemma MirrorNotes<T>(t: Tier<T>, key: Key, kv: KV<T>)
    requires Shaped(t) && t.writeThrough
    ensures SameNotes(t, Mirror(t, key, kv).state)
  {
    hide PoolOk, AllSized, Lru.Valid;
  }

  ghost function MarksAfter<T>(marks: set<nat>, op: Op<T>): set<nat> {
    match op
    case OpTrim(s, _) => marks + {s}
    case OpIngest(s, _, _) => marks + {s}
    case OpRelease(s, _) => marks - {s}
    case _ => marks
  }

  ghost function NotedAfter<T>(mixture: bool, notes: map<nat, set<nat>>, op: Op<T>): map<nat, set<nat>> {
    match op
    case OpPrevSelected(s, chosen) => if mixture then notes[s := chosen] else notes
    case OpRelease(s, _) => notes - {s}
    case _ => notes
  }

  /** A hand-over marks its sequence even if it raises, and only a release takes the mark away. */
  lemma StepNotes<T>(t: Tier<T>, op: Op<T>)
    requires Shaped(t) && WellShaped(t, op)
    ensures var u := Step(t, op).state;
            && u.mixture == t.mixture && u.trimmed == MarksAfter(t.trimmed, op)
            && u.prevSelected == NotedAfter(t.mixture, t.prevSelected, op)
  {
    hide PoolOk, AllSized, Lru.Valid, Fill, WriteLive, AppendAt, EnsureAll, Prefetch, TrimFrom, Stage, Touched;
    match op
    case OpFill(key, kv) => WriteNotes(t, key, kv);
    case OpLive(key, kv) => WriteNotes(t, key, kv);
    case OpAppend(s, pos, kRow, vRow) =>
      AppendNotes(t, Key(s, pos / t.blockSize), pos % t.blockSize, kRow, vRow);
    case OpEnsure(s, ids, keep) => RequestNotes(t, s, ids, keep);
    case OpPrefetch(s, ids) => GuessNotes(t, KeysOf(s, ids));
    case OpPrevSelected(_, _) =>
    case OpTrim(s, blocks) => TrimNotes(t, s, blocks);
    case OpIngest(s, blocks, tail) => IngestNotes(t, s, blocks, tail);
    case OpRelease(_, _) =>
  }

  lemma RequestNotes<T>(t: Tier<T>, s: nat, ids: seq<nat>, keep: seq<nat>)
    requires Shaped(t)
    ensures SameNotes(t, EnsureResident(t, s, ids, keep).state)
  {
    hide PoolOk, AllSized, Lru.Valid, EnsureAll;
    TouchedShaped(t, KeysOf(s, ids), KeysOf(s, keep));
    PassNotes(Touched(t, KeysOf(s, ids), KeysOf(s, keep)), KeysOf(s, ids));
  }

  lemma TrimNotes<T>(t: Tier<T>, s: nat, blocks: seq<KV<T>>)
    requires Shaped(t) && AllSized(blocks, t.blockSize)
    ensures var u := Trim(t, s, blocks).state;
            u.trimmed == t.trimmed + {s} && u.prevSelected == t.prevSelected && u.mixture == t.mixture
  {
    hide PoolOk, AllSized, Lru.Valid, TrimFrom;
    if s !in t.trimmed {
      TrimFromNotes(t.(trimmed := t.trimmed + {s}), s, blocks, KeepFrom(|blocks|, t.lru.capacity), 0);
    }
  }

  lemma IngestNotes<T>(t: Tier<T>, s: nat, blocks: seq<KV<T>>, tail: KV<T>)
    requires Shaped(t) && AllSized(blocks, t.blockSize) && |tail.k| == |tail.v| < t.blockSize
    ensures var u := Ingest(t, s, blocks, tail).state;
            u.trimmed == t.trimmed + {s} && u.prevSelected == t.prevSelected && u.mixture == t.mixture
  {
    hide PoolOk, AllSized, Lru.Valid, Trim, Stage;
    TrimNotes(t, s, blocks);
    if s in t.trimmed {
    } else if Trim(t, s, blocks).Ok? {
      TrimShaped(t, s, blocks);
      if |tail.k| > 0 { StageNotes(Trim(t, s, blocks).state, Key(s, |blocks|), tail); }
    }
  }

  // ------------------------------------------------------------------ handing over twice is handing over once

  /** A second hand-over of either kind leaves the layer exactly as it is. */
  ghost predicate Settled<T>(t: Tier<T>, s: nat, again: Op<T>) {
    Shaped(t) && HandsOver(again, s) && WellShaped(t, again) && Step(t, again) == Ok(t)
  }

  lemma MarkedSettled<T>(t: Tier<T>, s: nat, again: Op<T>)
    requires Shaped(t) && HandsOver(again, s) && WellShaped(t, again) && s in t.trimmed
    ensures Settled(t, s, again)
  {
  }

  /** Handing over twice is handing over once, for both hand-overs in any mix and even if the first one raised. */
  lemma HandOverOnce<T>(t: Tier<T>, s: nat, first: Op<T>, again: Op<T>)
    requires Shaped(t) && WellShaped(t, first) && HandsOver(first, s)
    requires var u := Step(t, first).state; Shaped(u) && WellShaped(u, again) && HandsOver(again, s)
    ensures Step(Step(t, first).state, again) == Ok(Step(t, first).state)
  {
    hide Step;
    StepNotes(t, first);
    MarkedSettled(Step(t, first).state, s, again);
  }

  /** Releasing a sequence of which nothing is cached or noted does nothing. */
  lemma ReleaseUnseen<T>(t: Tier<T>, s: nat)
    requires Shaped(t) && s !in t.trimmed && s !in t.prevSelected
    requires forall x :: x in t.lru.slot || x in Backing(t) ==> x.seqId != s
    ensures ListsCopies([], Backing(t), s) && Release(t, s, []) == t
  {
    hide PoolOk, AllSized, Lru.Valid;
    HeldKeys(t.lru);
    forall x | x in t.lru.order ensures x.seqId != s { assert x in Elems(t.lru.order); }
    NoneOf(t.lru.order, s);
    assert Elems<Key>([]) == {} && Blocks({}) == {};
    assert t.trimmed - {s} == t.trimmed && t.prevSelected - {s} == t.prevSelected;
    assert MarkOnGpu(t.residency, {}) == t.residency;
    assert t.cpuSlots - {} == t.cpuSlots && t.hostSlots - {} == t.hostSlots;
    assert t.cpuFree + SlotsOf(Backing(t), []) == t.cpuFree;
  }

  lemma {:induction false} NoneOf(order: seq<Key>, s: nat)
    requires forall x :: x in order ==> x.seqId != s
    ensures SeqKeys(order, s) == []
  {
    if order != [] { NoneOf(order[1..], s); }
  }

  /** Releasing twice is releasing once. */
  lemma ReleaseTwice<T>(t: Tier<T>, s: nat, hostKeys: seq<Key>)
    requires Shaped(t) && ListsCopies(hostKeys, Backing(t), s)
    ensures var u := Release(t, s, hostKeys); ListsCopies([], Backing(u), s) && Release(u, s, []) == u
  {
    hide PoolOk, AllSized, Lru.Valid, ListsCopies, Release;
    ReleaseShaped(t, s, hostKeys);
    ReleaseExact(t, s, hostKeys);
    ReleaseUnseen(Release(t, s, hostKeys), s);
  }

  // ------------------------------------------------------------------ over whole runs

  /** Any run of operations that return, for any number of sequences. */
  ghost predicate Returned<T>(ts: seq<Tier<T>>, ops: seq<Op<T>>) {
    && |ts| == |ops| + 1 && Shaped(ts[0]) && New(ts[0])
    && forall i :: 0 <= i < |ops| ==> Returns(ts[i], ops[i], ts[i + 1])
  }

  ghost predicate Returns<T>(t: Tier<T>, op: Op<T>, u: Tier<T>) {
    Shaped(t) && WellShaped(t, op) && Step(t, op) == Ok(u)
  }

  /** Whether the first `n` calls handed `s` over and did not release it since. */
  ghost predicate Handed<T>(ops: seq<Op<T>>, n: nat, s: nat)
    requires n <= |ops|
  {
    n > 0 && (HandsOver(ops[n - 1], s) || (!Releases(ops[n - 1], s) && Handed(ops, n - 1, s)))
  }

  /** The selection the first `n` calls remembered last for `s` and did not release since. */
  ghost function Chosen<T>(ops: seq<Op<T>>, n: nat, s: nat): set<nat>
    requires n <= |ops|
  {
    if n == 0 || Releases(ops[n - 1], s) then {}
    else if ops[n - 1].OpPrevSelected? && ops[n - 1].seqId == s then ops[n - 1].chosen
    else Chosen(ops, n - 1, s)
  }

  lemma {:induction false} MarkIsHistory<T>(ts: seq<Tier<T>>, ops: seq<Op<T>>, n: nat, s: nat)
    requires Returned(ts, ops) && n <= |ops|
    ensures s in ts[n].trimmed <==> Handed(ops, n, s)
  {
    hide Step, WellShaped, Shaped;
    if n > 0 {
      MarkIsHistory(ts, ops, n - 1, s);
      assert Returns(ts[n - 1], ops[n - 1], ts[n]);
      StepNotes(ts[n - 1], ops[n - 1]);
    }
  }

  lemma {:induction false} SelectionIsHistory<T>(ts: seq<Tier<T>>, ops: seq<Op<T>>, n: nat, s: nat)
    requires Returned(ts, ops) && n <= |ops|
    ensures ts[n].mixture == ts[0].mixture
    ensures ts[n].mixture ==> Chosen(ops, n, s) == if s in ts[n].prevSelected then ts[n].prevSelected[s] else {}
  {
    hide Step, WellShaped, Shaped;
    if n > 0 {
      SelectionIsHistory(ts, ops, n - 1, s);
      assert Returns(ts[n - 1], ops[n - 1], ts[n]);
      StepNotes(ts[n - 1], ops[n - 1]);
    }
  }

  /**
   At every moment of every run a sequence protects exactly the selection last remembered for it, under the mixture
   ordering, and nothing once it was released.
   */
  lemma ProtectsLastSelection<T>(ts: seq<Tier<T>>, ops: seq<Op<T>>, n: nat, s: nat, x: Key)
    requires Returned(ts, ops) && n <= |ops|
    ensures x in ProtectedKeys(ts[n], s) <==> ts[0].mixture && x.seqId == s && x.block in Chosen(ops, n, s)
  {
    hide Step, WellShaped, Shaped, Chosen;
    SelectionIsHistory(ts, ops, n, s);
    assert x.seqId == s ==> x == Key(s, x.block);
  }

  /**
   At every moment of every run a hand-over does its work if and only if the sequence was not handed over since it was
   last released: otherwise it leaves the layer exactly as it is, and then every block of the prompt is stored by it.
   */
  lemma HandOverByHistory<T>(ts: seq<Tier<T>>, ops: seq<Op<T>>, n: nat, s: nat, p: Plain<T>, again: Op<T>)
    requires Returned(ts, ops) && n <= |ops| && Represents(ts[n], p) && WellShaped(ts[n], again) && HandsOver(again, s)
    requires var end := |again.blocks| + if again.OpTrim? then 0 else 1;
             !Handed(ops, n, s) ==> forall i :: 0 <= i < end ==> Key(s, i) !in p
    ensures Handed(ops, n, s) ==> Step(ts[n], again) == Ok(ts[n])
    ensures !Handed(ops, n, s) && Step(ts[n], again).Ok? ==>
              && Step(ts[n], again).state != ts[n]
              && Represents(Step(ts[n], again).state,
                            if again.OpTrim? then WithBlocks(p, s, again.blocks, 0)
                            else WithPrompt(p, s, again.blocks, again.tail))
  {
    hide StoredBut, Trim, Ingest, Handed;
    RepresentsShaped(ts[n], p);
    MarkIsHistory(ts, ops, n, s);
    if Handed(ops, n, s) {
      MarkedSettled(ts[n], s, again);
    } else if Step(ts[n], again).Ok? {
      StepNotes(ts[n], again);
      if again.OpTrim? {
        TrimStored(ts[n], p, s, again.blocks);
      } else {
        IngestStored(ts[n], p, s, again.blocks, again.tail);
      }
    }
  }

  // ------------------------------------------------------------------ the decode loop hands over at every step

  /** The layers of a run of the loop. */
  ghost function Layers<T>(run: seq<Moment<T>>): (ts: seq<Tier<T>>)
    ensures |ts| == |run| && forall i :: 0 <= i < |run| ==> ts[i] == run[i].t
  {
    seq(|run|, i requires 0 <= i < |run| => run[i].t)
  }

  lemma LoopReturns<T>(run: seq<Moment<T>>, ops: seq<Op<T>>)
    requires Looped(run, ops)
    ensures Returned(Layers(run), ops)
  {
    hide Step, WellShaped, Shaped, Turned, New, Ready;
    forall i | 0 <= i < |ops| ensures Returns(Layers(run)[i], ops[i], Layers(run)[i + 1]) {
      DecodeLoopNeverRaises(run, ops, i);
    }
  }

  ghost predicate Looped<T>(run: seq<Moment<T>>, ops: seq<Op<T>>) {
    && |run| == |ops| + 1
    && Shaped(run[0].t) && New(run[0].t) && run[0].p == map[] && run[0].last == Nothing && run[0].t.lru.capacity > 0
    && forall i :: 0 <= i < |ops| ==> Turned(run[i], ops[i], run[i + 1])
  }

  /**
   The engine asks for the hand-over at every decode step. Once a sequence was handed over, that request is a turn of
   the loop at any later moment before its release, with whatever blocks, and it changes nothing.
   */
  lemma HandOverEveryStep<T>(run: seq<Moment<T>>, ops: seq<Op<T>>, n: nat, again: Op<T>)
    requires Looped(run, ops) && n <= |ops| && Handed(ops, n, run[n].s)
    requires HandsOver(again, run[n].s) && WellShaped(run[n].t, again)
    ensures Turned(run[n], again, run[n])
  {
    hide StoredBut, TracksBut, AccountedTo, Tailed, PoolOk, Lru.Valid, AllSized, New, Turned, WellShaped;
    LoopReturns(run, ops);
    MarkIsHistory(Layers(run), ops, n, run[n].s);
    DecodeLoopNeverRaises(run, ops, n);
    RepresentsShaped(run[n].t, run[n].p);
    StillRoomy(run, ops, n);
    AgainIsTurn(run[n], again);
  }

  lemma AgainIsTurn<T>(a: Moment<T>, again: Op<T>)
    requires Shaped(a.t) && HandsOver(again, a.s) && WellShaped(a.t, again) && a.s in a.t.trimmed
    requires !a.t.writeThrough ==> |a.p.Keys| < Slots(a.t)
    ensures Turned(a, again, a)
  {
    hide PoolOk, Lru.Valid, AllSized, Trim, Ingest;
    MarkedSettled(a.t, a.s, again);
  }

  lemma StillRoomy<T>(run: seq<Moment<T>>, ops: seq<Op<T>>, n: nat)
    requires Looped(run, ops) && 0 < n <= |ops|
    ensures !run[n].t.writeThrough ==> |run[n].p.Keys| < Slots(run[n].t)
  {
    hide PlainStep, Habit, Step, New, Ready, LastAfter, WellShaped, PoolOk, Lru.Valid, AllSized;
    var a := run[n - 1];
    assert Turned(a, ops[n - 1], run[n]);
    DecodeLoopNeverRaises(run, ops, n - 1);
    StepKeepsSize(a.t, ops[n - 1]);
  }
}
