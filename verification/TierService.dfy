/**
 What a caller of the tiered cache can rely on without looking inside it. A write-back layer that serves
 requests one after another never raises while its blocks number fewer than its slots, and a decode step whose
 working set fits finds every block it selected, with the rows last written.
 */
module TierService {
  import opened Lists
  import opened SlotMap
  import opened WorkingSet
  import opened Speculation
  import opened TierModel
  import opened TierTransparency
  import opened TierSafety
  import opened TierAccounts
  import opened TierSuccess

  // ------------------------------------------------------------------ whole runs

  ghost predicate SameSize<T>(t: Tier<T>, u: Tier<T>) {
    && u.blockSize == t.blockSize && u.writeThrough == t.writeThrough && u.mixture == t.mixture
    && u.prefetchTouch == t.prefetchTouch && u.lru.capacity == t.lru.capacity && |u.cpu| == |t.cpu|
  }

  lemma WritesKeepSize<T>(t: Tier<T>, key: Key, kv: KV<T>)
    requires Shaped(t) && Sized(kv, t.blockSize)
    ensures Fill(t, key, kv).Ok? ==> SameSize(t, Fill(t, key, kv).state)
    ensures WriteLive(t, key, kv).Ok? ==> SameSize(t, WriteLive(t, key, kv).state)
  {
    hide PoolOk, Lru.Valid, AllSized, Place, Mirror;
    PlaceShaped(t, key, {});
    if Place(t, key, {}).Placed? && t.writeThrough {
      var Placed(u, slot) := Place(t, key, {});
      var w := Written(u, slot, kv, key.block);
      if Mirror(w, key, kv).Ok? { MirrorShaped(w, key, kv); }
    }
  }

  lemma AppendKeepsSize<T>(t: Tier<T>, key: Key, offset: nat, kRow: T, vRow: T)
    requires Shaped(t) && offset < t.blockSize && AppendAt(t, key, offset, kRow, vRow).Ok?
    ensures SameSize(t, AppendAt(t, key, offset, kRow, vRow).state)
  {
    hide PoolOk, Lru.Valid, Place, Mirror, WithRow;
    PlaceShaped(t, key, {});
    var Placed(u, slot) := Place(t, key, {});
    assert Sized(u.gpu[slot], u.blockSize);
    var kv := WithRow(u.gpu[slot], offset, kRow, vRow);
    var w := Written(u, slot, kv, key.block);
    if t.writeThrough && Mirror(w, key, kv).Ok? { MirrorShaped(w, key, kv); }
  }

  lemma {:induction false} PassesKeepSize<T>(t: Tier<T>, keys: seq<Key>)
    requires Shaped(t)
    ensures EnsureAll(t, keys).Ok? ==> SameSize(t, EnsureAll(t, keys).state)
    ensures Prefetch(t, keys).Ok? ==> SameSize(t, Prefetch(t, keys).state)
    decreases |keys|
  {
    hide PoolOk, Lru.Valid, AllSized, EnsureOne;
    if keys != [] && EnsureOne(t, keys[0]).Ok? {
      var u := EnsureOne(t, keys[0]).state;
      EnsureOneShaped(t, keys[0]);
      DemotedShaped(u, keys[0]);
      PassesKeepSize(u, keys[1..]);
      PassesKeepSize(Demoted(u, keys[0]), keys[1..]);
    }
  }

  lemma HandOverKeepsSize<T>(t: Tier<T>, s: nat, blocks: seq<KV<T>>, tail: KV<T>)
    requires Shaped(t) && AllSized(blocks, t.blockSize) && |tail.k| == |tail.v| < t.blockSize
    requires Ingest(t, s, blocks, tail).Ok?
    ensures SameSize(t, Ingest(t, s, blocks, tail).state)
  {
    hide PoolOk, Lru.Valid, AllSized, Trim, Place, Over;
    if s !in t.trimmed {
      TrimShaped(t, s, blocks);
      var u := Trim(t, s, blocks).state;
      PlaceShaped(u, Key(s, |blocks|), {});
    }
  }

  lemma StepKeepsSize<T>(t: Tier<T>, op: Op<T>)
    requires Shaped(t) && WellShaped(t, op) && Step(t, op).Ok?
    ensures SameSize(t, Step(t, op).state)
  {
    hide PoolOk, Lru.Valid, AllSized, Fill, WriteLive, AppendAt, EnsureAll, Prefetch, Trim, Ingest, Release;
    match op
    case OpFill(key, kv) => WritesKeepSize(t, key, kv);
    case OpLive(key, kv) => WritesKeepSize(t, key, kv);
    case OpAppend(seqId, pos, kRow, vRow) => AppendKeepsSize(t, Key(seqId, pos / t.blockSize), pos % t.blockSize,
        kRow, vRow);
    case OpEnsure(seqId, ids, keep) =>
      var idKeys, keepKeys := KeysOf(seqId, ids), KeysOf(seqId, keep);
      TouchedShaped(t, idKeys, keepKeys);
      TouchAllValid(t.lru, keepKeys);
      TouchAllValid(TouchAll(t.lru, keepKeys), idKeys);
      PassesKeepSize(Touched(t, idKeys, keepKeys), idKeys);
    case OpPrefetch(seqId, ids) => PassesKeepSize(t, KeysOf(seqId, ids));
    case OpPrevSelected(_, _) =>
    case OpTrim(seqId, blocks) => TrimShaped(t, seqId, blocks);
    case OpIngest(seqId, blocks, tail) => HandOverKeepsSize(t, seqId, blocks, tail);
    case OpRelease(seqId, hostKeys) => ReleaseShaped(t, seqId, hostKeys);
  }

  /** What a well-behaved caller does next, on behalf of sequence `s`. Nothing here says that the operation succeeds. */
  ghost predicate Proper<T>(t: Tier<T>, p: Plain<T>, s: nat, op: Op<T>) {
    && Shaped(t) && Concerns(op, s) && WellShaped(t, op) && HandOverFirst(t, s, op)
    && Disciplined(t, p, op) && Unspilled(t, op)
  }

  lemma StepServes<T>(t: Tier<T>, p: Plain<T>, s: nat, op: Op<T>)
    requires Serving(t, p, s) && Proper(t, p, s, op) && Enough(t, p, op)
    ensures Step(t, op).Ok? && Serving(Step(t, op).state, PlainStep(t, p, op), s)
  {
    hide StoredBut, TracksBut, AccountedTo, Step, PlainStep;
    hide Disciplined, WellShaped, HandOverFirst, Enough, Unspilled, Concerns;
    hide PoolOk, Lru.Valid, AllSized;
    WriteBackOkIff(t, p, s, op);
    StepRefines(t, p, op);
    StepTracks(t, s, op);
    StepConserves(t, p, op);
    StepKeepsSize(t, op);
  }

  /** A released layer is ready for whatever sequence comes next. */
  lemma ServesNext<T>(t: Tier<T>, p: Plain<T>, s: nat, hostKeys: seq<Key>, next: nat)
    requires Serving(t, p, s) && ListsCopies(hostKeys, Backing(t), s)
    ensures Tracks(Release(t, s, hostKeys), next)
  {
    hide StoredBut, InStep, AccountedTo, PoolOk, Lru.Valid, AllSized, Release;
    ReleaseTracks(t, s, hostKeys, next);
  }

  lemma {:induction false} WithBlocksCount<T>(p: Plain<T>, s: nat, blocks: seq<KV<T>>, b: nat)
    requires b <= |blocks| && forall i :: b <= i < |blocks| ==> Key(s, i) !in p
    ensures |WithBlocks(p, s, blocks, b).Keys| == |p.Keys| + |blocks| - b
    decreases |blocks| - b
  {
    if b < |blocks| {
      var q := p[Key(s, b) := blocks[b]];
      OneMore(p.Keys, q.Keys, Key(s, b));
      WithBlocksCount(q, s, blocks, b + 1);
    }
  }

  /** Fewer blocks than slots, and only stored blocks asked for: the operation goes through. */
  lemma FewBlocksEnough<T>(t: Tier<T>, p: Plain<T>, s: nat, op: Op<T>)
    requires Serving(t, p, s) && Proper(t, p, s, op) && Modest(t, p, op)
    ensures Enough(t, p, op)
  {
    hide StoredBut, TracksBut, AccountedTo, PoolOk, Lru.Valid, AllSized;
    hide Unspilled, Grown, Forget, WithBlocks, ListsCopies, CanAppend;
    if (op.OpTrim? || op.OpIngest?) && s !in t.trimmed {
      WithBlocksCount(p, s, op.blocks, 0);
      var q := WithBlocks(p, s, op.blocks, 0);
      if op.OpIngest? { SubsetSize(q.Keys, WithPrompt(p, s, op.blocks, op.tail).Keys); }
    }
  }

  ghost predicate Modest<T>(t: Tier<T>, p: Plain<T>, op: Op<T>)
    requires t.blockSize > 0
  {
    && |PlainStep(t, p, op).Keys| < Slots(t)
    && (op.OpEnsure? || op.OpPrefetch? ==> forall b :: b in op.ids ==> Key(op.seqId, b) in p)
  }

  /** One operation of a run. A new sequence may follow once the previous one was released. */
  ghost predicate Attempt<T>(t: Tier<T>, p: Plain<T>, s: nat, op: Op<T>, t': Tier<T>, p': Plain<T>, s': nat) {
    && Proper(t, p, s, op) && Modest(t, p, op)
    && t' == Step(t, op).state && p' == PlainStep(t, p, op) && (s' == s || op.OpRelease?)
  }

  lemma AttemptServes<T>(t: Tier<T>, p: Plain<T>, s: nat, op: Op<T>, t': Tier<T>, p': Plain<T>, s': nat)
    requires Serving(t, p, s) && Attempt(t, p, s, op, t', p', s')
    ensures Step(t, op) == Ok(t') && Serving(t', p', s')
  {
    hide StoredBut, TracksBut, AccountedTo, PlainStep, Disciplined, HandOverFirst, Enough, Unspilled, Modest, Release;
    hide PoolOk, Lru.Valid, AllSized, Fill, WriteLive, AppendAt, EnsureAll, Prefetch, Trim, Ingest, ListsCopies;
    FewBlocksEnough(t, p, s, op);
    StepServes(t, p, s, op);
    if s' != s { ServesNext(t, p, s, op.hostKeys, s'); }
  }

  /**
   A write-back layer serving requests one after another never raises while its blocks number fewer than its slots,
   and after every operation it represents the plain map. No step of the run is assumed to succeed.
   */
  lemma {:induction false} RunNeverRaises<T>(ts: seq<Tier<T>>, ps: seq<Plain<T>>, ss: seq<nat>, ops: seq<Op<T>>, n: nat)
    requires |ts| == |ps| == |ss| == |ops| + 1 && n <= |ops|
    requires Shaped(ts[0]) && New(ts[0]) && ps[0] == map[] && !ts[0].writeThrough && ts[0].lru.capacity > 0
    requires forall i :: 0 <= i < |ops| ==> Attempt(ts[i], ps[i], ss[i], ops[i], ts[i + 1], ps[i + 1], ss[i + 1])
    ensures Serving(ts[n], ps[n], ss[n])
    ensures n < |ops| ==> Shaped(ts[n]) && WellShaped(ts[n], ops[n]) && Step(ts[n], ops[n]) == Ok(ts[n + 1])
    decreases n
  {
    hide StoredBut, TracksBut, AccountedTo, Step, PlainStep;
    hide Disciplined, WellShaped, HandOverFirst, Unspilled, Modest, New;
    if n == 0 {
      NewAccounted(ts[0]);
      NewTracks(ts[0], ss[0]);
    } else {
      RunNeverRaises(ts, ps, ss, ops, n - 1);
      AttemptServes(ts[n - 1], ps[n - 1], ss[n - 1], ops[n - 1], ts[n], ps[n], ss[n]);
    }
    if n < |ops| { AttemptServes(ts[n], ps[n], ss[n], ops[n], ts[n + 1], ps[n + 1], ss[n + 1]); }
  }

  /** A new layer may serve any sequence first. */
  lemma NewTracks<T>(t: Tier<T>, s: nat)
    requires Shaped(t) && New(t)
    ensures Tracks(t, s)
  {
    hide PoolOk, AllSized;
    HeldKeys(t.lru);
  }

  // ------------------------------------------------------------------ reading back

  ghost predicate ReadsBack<T>(t: Tier<T>, p: Plain<T>, key: Key) {
    key in p && key in t.lru.slot && t.lru.slot[key] < |t.gpu| && Within(p[key], t.gpu[t.lru.slot[key]])
  }

  /**
   Blocks the step does not need can be given up: under write-through they are mirrored, under write-back there is a
   spare slot in one of the pools, unless everything selected is in the arena anyway.
   */
  ghost predicate Covered<T>(t: Tier<T>, need: set<Key>, s: nat, ids: seq<nat>) {
    if t.writeThrough then forall x :: x in t.lru.slot && x !in need ==> x in t.hostSlots
    else t.cpuFree != [] || t.lru.free != [] || forall b :: b in ids ==> Key(s, b) in t.lru.slot
  }

  lemma CoveredSheltered<T>(t: Tier<T>, s: nat, ids: seq<nat>, keep: seq<nat>)
    requires Shaped(t) && t.lru.capacity > 0
    requires var need := Need(t.lru, KeysOf(s, ids), KeysOf(s, keep));
             && |need| <= t.lru.capacity && Covered(t, need, s, ids)
             && Spared(t.lru, need, KeysOf(s, ids), ProtectedKeys(t, s))
    ensures ShelteredAll(t, EnsurePass(t.lru, KeysOf(s, ids), KeysOf(s, keep), ProtectedKeys(t, s)).victims)
  {
    hide PoolOk, AllSized, Lru.Valid, Spared, Reload, TouchAll, ProtectedKeys;
    var idKeys, keepKeys, protected := KeysOf(s, ids), KeysOf(s, keep), ProtectedKeys(t, s);
    var need := Need(t.lru, idKeys, keepKeys);
    NeededNeverEvictedIff(t.lru, idKeys, keepKeys, protected);
    TouchAllValid(t.lru, keepKeys);
    TouchAllValid(TouchAll(t.lru, keepKeys), idKeys);
    var m := TouchAll(TouchAll(t.lru, keepKeys), idKeys);
    if t.writeThrough {
      VictimsHeldOrAsked(m, idKeys, protected);
      forall v | v in EnsurePass(t.lru, idKeys, keepKeys, protected).victims ensures v in t.hostSlots {
        assert v in Elems(Reload(m, idKeys, protected).victims);
        assert v !in need;
      }
    } else if forall b :: b in ids ==> Key(s, b) in t.lru.slot {
      HeldReload(m, idKeys, protected);
    }
  }

  /**
   What the decode step relies on: asking for stored blocks succeeds, and every selected block and the live block then
   sit in the arena with exactly the rows last written. The working set has to fit, `Spared` to hold, and the
   blocks not needed must be coverable.
   */
  lemma SelectedBlocksReadBack<T>(t: Tier<T>, p: Plain<T>, s: nat, ids: seq<nat>, keep: seq<nat>)
    requires Tracks(t, s) && Represents(t, p) && t.lru.capacity > 0 && forall b :: b in ids ==> Key(s, b) in p
    requires var need := Need(t.lru, KeysOf(s, ids), KeysOf(s, keep));
             && |need| <= t.lru.capacity && Covered(t, need, s, ids)
             && Spared(t.lru, need, KeysOf(s, ids), ProtectedKeys(t, s))
    ensures EnsureResident(t, s, ids, keep).Ok?
    ensures forall key :: key in Need(t.lru, KeysOf(s, ids), KeysOf(s, keep)) ==>
              ReadsBack(EnsureResident(t, s, ids, keep).state, p, key)
  {
    hide PoolOk, AllSized, Lru.Valid, ArenaHolds, HostHolds, InStep, Spared, EnsureResident, Covered, Need;
    ResidentOkIff(t, p, s, ids, keep);
    CoveredSheltered(t, s, ids, keep);
    forall key | key in Need(t.lru, KeysOf(s, ids), KeysOf(s, keep))
      ensures ReadsBack(EnsureResident(t, s, ids, keep).state, p, key)
    {
      ReturnedReadsBack(t, p, s, ids, keep, key);
    }
  }

  /** With plain LRU every working set that fits reads back. */
  lemma PlainLruReadsBack<T>(t: Tier<T>, p: Plain<T>, s: nat, ids: seq<nat>, keep: seq<nat>)
    requires Tracks(t, s) && Represents(t, p) && t.lru.capacity > 0 && forall b :: b in ids ==> Key(s, b) in p
    requires var need := Need(t.lru, KeysOf(s, ids), KeysOf(s, keep));
             !t.mixture && |need| <= t.lru.capacity && Covered(t, need, s, ids)
    ensures EnsureResident(t, s, ids, keep).Ok?
    ensures forall key :: key in Need(t.lru, KeysOf(s, ids), KeysOf(s, keep)) ==>
              ReadsBack(EnsureResident(t, s, ids, keep).state, p, key)
  {
    hide PoolOk, AllSized, Lru.Valid, ArenaHolds, HostHolds, InStep, EnsureResident, Covered;
    SlotsHeld(t.lru);
    FittingIsSpared(t.lru.slot.Keys, |t.lru.free|, Need(t.lru, KeysOf(s, ids), KeysOf(s, keep)), KeysOf(s, ids));
    SelectedBlocksReadBack(t, p, s, ids, keep);
  }

  /**
   The swap that fails: with the arena and the write-back pool both full, reloading any spilled block raises, because
   room for the victim is sought before the slot being read is given back. The reloaded block's record and the
   victim's rows are lost.
   */
  lemma FullPoolsCannotSwap<T>(t: Tier<T>, key: Key)
    requires Accounted(t) && !t.writeThrough && t.lru.free == [] && t.lru.order != [] && t.cpuFree == []
    requires key in t.cpuSlots
    ensures var r := EnsureOne(t, key); var v := Victim(t.lru.order, ProtectedKeys(t, key.seqId));
            && r.Err? && r.error == PoolFull && key !in r.state.cpuSlots
            && v in t.lru.slot && v !in r.state.lru.slot && v !in r.state.cpuSlots
  {
    hide PoolOk, AllSized;
    TakenShaped(t, key);
    var t0, protected := t.(cpuSlots := t.cpuSlots - {key}), ProtectedKeys(t, key.seqId);
    AddValid(t.lru, key, protected);
    assert Victim(t.lru.order, protected) in Elems(t.lru.order);
  }
}
