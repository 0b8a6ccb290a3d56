/**
 Host slots are conserved: every slot of the pool is free or recorded for one block, in every state a run from
 a new layer reaches, as long as no spilled block is written again before it is reloaded. Such a rewrite loses a
 slot for good as soon as the block is evicted once more.
 */
module TierAccounts {
  import opened Lists
  import opened SlotMap
  import opened TierModel
  import opened TierTransparency
  import opened TierFailure

  /** `total` host slots are free or recorded, and (write-back) a block is never both resident and spilled. */
  ghost predicate AccountedTo<T>(t: Tier<T>, total: nat) {
    && Shaped(t)
    && |t.cpuFree| + |Backing(t).Keys| == total
    && (!t.writeThrough ==> forall k :: k in t.lru.slot ==> k !in t.cpuSlots)
  }

  ghost predicate Accounted<T>(t: Tier<T>) {
    AccountedTo(t, |t.cpu|)
  }

  /**
   A write-back spill keeps the count exactly when the victim had no host slot already; otherwise that slot is lost.
   */
  lemma SpillConservesIff<T>(t: Tier<T>, victim: Key, slot: nat)
    requires Shaped(t) && !t.writeThrough && slot < |t.gpu| && Spill(t, victim, slot).Ok?
    ensures var u := Spill(t, victim, slot).state;
            |u.cpuFree| + |Backing(u).Keys| == |t.cpuFree| + |Backing(t).Keys| <==> victim !in t.cpuSlots
  {
    hide PoolOk, Lru.Valid, AllSized;
    var c := t.cpuFree[|t.cpuFree| - 1];
    if victim in t.cpuSlots {
      assert t.cpuSlots[victim := c].Keys == t.cpuSlots.Keys;
    } else {
      assert t.cpuSlots[victim := c].Keys == t.cpuSlots.Keys + {victim};
    }
  }

  /** What a spill does to the books: nothing under write-through, one slot moves from free to recorded otherwise. */
  lemma SpillBooks<T>(t: Tier<T>, victim: Key, slot: nat)
    requires Shaped(t) && slot < |t.gpu| && Spill(t, victim, slot).Ok?
    ensures var u := Spill(t, victim, slot).state;
            && u.lru == t.lru && u.writeThrough == t.writeThrough && |u.cpu| == |t.cpu|
            && (t.writeThrough ==> |u.cpuFree| == |t.cpuFree| && Backing(u) == Backing(t))
            && (!t.writeThrough ==> |u.cpuFree| + 1 == |t.cpuFree| && Backing(u).Keys == Backing(t).Keys + {victim})
  {
    hide PoolOk, Lru.Valid, AllSized;
    SpillShaped(t, victim, slot);
  }

  lemma SpillAccounted<T>(t: Tier<T>, victim: Key, slot: nat, total: nat)
    requires AccountedTo(t, total) && slot < |t.gpu| && Spill(t, victim, slot).Ok?
    requires victim !in t.lru.slot && victim !in t.cpuSlots
    ensures AccountedTo(Spill(t, victim, slot).state, total)
  {
    hide PoolOk, Lru.Valid, AllSized, Spill;
    SpillShaped(t, victim, slot);
    SpillBooks(t, victim, slot);
    if !t.writeThrough { SpillConservesIff(t, victim, slot); }
  }

  lemma AddAccounted<T>(t: Tier<T>, key: Key, a: Added, total: nat)
    requires AccountedTo(t, total) && key !in t.cpuSlots && AddedRight(t.lru, key, a)
    ensures AccountedTo(t.(lru := a.lru), total) && a.slot < |t.gpu|
    ensures a.evicted.Some? ==> a.evicted.value !in a.lru.slot && a.evicted.value !in t.cpuSlots
  {
    hide PoolOk, Lru.Valid, AllSized;
    AddMoved(t.lru, key, a);
  }

  lemma PlaceAccounted<T>(t: Tier<T>, key: Key, protected: set<Key>, total: nat)
    requires AccountedTo(t, total) && key !in t.cpuSlots && Place(t, key, protected).Placed?
    ensures AccountedTo(Place(t, key, protected).state, total)
  {
    hide PoolOk, Lru.Valid, AllSized, Spill, Add, AddedRight, Backing;
    AddValid(t.lru, key, protected);
    var a := Add(t.lru, key, protected).value;
    AddAccounted(t, key, a, total);
    if a.evicted.Some? {
      SpillAccounted(t.(lru := a.lru), a.evicted.value, a.slot, total);
    }
  }

  lemma StoreAccounted<T>(t: Tier<T>, key: Key, kv: KV<T>)
    requires Accounted(t) && t.cpuFree != [] && Sized(kv, t.blockSize) && key !in Backing(t)
    requires !t.writeThrough ==> key !in t.lru.slot
    ensures Accounted(StoreOnHost(t, key, kv))
  {
    hide PoolOk, Lru.Valid, AllSized;
    StoreShaped(t, key, kv);
    OneMore(Backing(t).Keys, Backing(StoreOnHost(t, key, kv)).Keys, key);
  }

  lemma OneMore(a: set<Key>, b: set<Key>, k: Key)
    requires k !in a && (forall x :: x in b <==> x in a || x == k)
    ensures |b| == |a| + 1
  {
    assert b == a + {k};
  }

  lemma MirrorAccounted<T>(t: Tier<T>, key: Key, kv: KV<T>)
    requires Accounted(t) && t.writeThrough && Sized(kv, t.blockSize) && Mirror(t, key, kv).Ok?
    ensures Accounted(Mirror(t, key, kv).state) && |Mirror(t, key, kv).state.cpu| == |t.cpu|
  {
    hide PoolOk, Lru.Valid, AllSized;
    if key !in t.hostSlots { StoreAccounted(t, key, kv); }
  }

  /** Writing a block that is not spilled keeps every host slot accounted for. */
  lemma WriteAccounted<T>(t: Tier<T>, key: Key, kv: KV<T>)
    requires Accounted(t) && key !in t.cpuSlots && Sized(kv, t.blockSize)
    ensures Fill(t, key, kv).Ok? ==> Accounted(Fill(t, key, kv).state) && |Fill(t, key, kv).state.cpu| == |t.cpu|
    ensures WriteLive(t, key, kv).Ok? ==>
            Accounted(WriteLive(t, key, kv).state) && |WriteLive(t, key, kv).state.cpu| == |t.cpu|
  {
    hide PoolOk, Lru.Valid, Place, Mirror;
    if Place(t, key, {}).Placed? {
      PlaceShaped(t, key, {});
      PlaceAccounted(t, key, {}, |t.cpu|);
      var Placed(u, slot) := Place(t, key, {});
      var w := Written(u, slot, kv, key.block);
      if t.writeThrough && Mirror(w, key, kv).Ok? { MirrorAccounted(w, key, kv); }
    }
  }

  lemma AppendAccounted<T>(t: Tier<T>, key: Key, offset: nat, kRow: T, vRow: T)
    requires Accounted(t) && key !in t.cpuSlots && offset < t.blockSize && AppendAt(t, key, offset, kRow, vRow).Ok?
    ensures Accounted(AppendAt(t, key, offset, kRow, vRow).state) &&
            |AppendAt(t, key, offset, kRow, vRow).state.cpu| == |t.cpu|
  {
    hide PoolOk, Lru.Valid, Place, Mirror, WithRow;
    PlaceShaped(t, key, {});
    PlaceAccounted(t, key, {}, |t.cpu|);
    var Placed(u, slot) := Place(t, key, {});
    assert Sized(u.gpu[slot], u.blockSize);
    var row := WithRow(u.gpu[slot], offset, kRow, vRow);
    var w := Written(u, slot, row, key.block);
    if t.writeThrough && Mirror(w, key, row).Ok? { MirrorAccounted(w, key, row); }
  }

  /** While a reload is under way exactly one host slot, the one being read, is outside the books. */
  lemma TakenAccounted<T>(t: Tier<T>, key: Key) returns (under: nat)
    requires Accounted(t) && key !in t.lru.slot && key in Backing(t)
    ensures AccountedTo(t.(cpuSlots := t.cpuSlots - {key}), under)
    ensures key !in t.cpuSlots - {key}
    ensures |t.cpu| == if t.writeThrough then under else under + 1
  {
    hide PoolOk, Lru.Valid, AllSized;
    var t0 := t.(cpuSlots := t.cpuSlots - {key});
    TakenShaped(t, key);
    if t.writeThrough {
      assert t0 == t;
      under := |t.cpu|;
    } else {
      OneMore(t0.cpuSlots.Keys, t.cpuSlots.Keys, key);
      under := |t.cpu| - 1;
    }
  }

  lemma EnsureOneAccounted<T>(t: Tier<T>, key: Key)
    requires Accounted(t) && EnsureOne(t, key).Ok?
    ensures Accounted(EnsureOne(t, key).state)
  {
    hide PoolOk, Lru.Valid, Place, AllSized;
    EnsureOneShaped(t, key);
    if key !in t.lru.slot {
      var t0, protected := t.(cpuSlots := t.cpuSlots - {key}), ProtectedKeys(t, key.seqId);
      var under := TakenAccounted(t, key);
      PlaceShaped(t0, key, protected);
      PlaceAccounted(t0, key, protected, under);
    }
  }

  lemma {:induction false} SlotsBackCount(at: map<Key, nat>, keys: seq<Key>)
    requires NoDup(keys) && forall k :: k in keys ==> k in at
    ensures |(at - Elems(keys)).Keys| + |keys| == |at.Keys|
  {
    ElemsSize(keys);
    assert at.Keys == (at - Elems(keys)).Keys + Elems(keys);
  }

  /** Releasing returns exactly the host slots the sequence held. */
  lemma ReleaseAccounted<T>(t: Tier<T>, s: nat, hostKeys: seq<Key>)
    requires Accounted(t) && ListsCopies(hostKeys, Backing(t), s)
    ensures Accounted(Release(t, s, hostKeys)) && |Release(t, s, hostKeys).cpu| == |t.cpu|
  {
    hide PoolOk, Lru.Valid, FreeAll, AllSized, Release, SeqKeys;
    var u := Release(t, s, hostKeys);
    ReleaseShaped(t, s, hostKeys);
    ReleaseFrees(t, s, hostKeys);
    assert u.lru.slot.Keys <= t.lru.slot.Keys && Backing(u).Keys <= Backing(t).Keys;
    SlotsBackCount(Backing(t), hostKeys);
  }

  lemma ReleaseFrees<T>(t: Tier<T>, s: nat, hostKeys: seq<Key>)
    requires ListsCopies(hostKeys, Backing(t), s)
    ensures |Release(t, s, hostKeys).cpuFree| == |t.cpuFree| + |hostKeys|
  {
    hide FreeAll, SeqKeys;
  }

  // ------------------------------------------------------------------ composite operations

  lemma {:induction false} EnsureAllAccounted<T>(t: Tier<T>, keys: seq<Key>)
    requires Accounted(t) && EnsureAll(t, keys).Ok?
    ensures Accounted(EnsureAll(t, keys).state) && |EnsureAll(t, keys).state.cpu| == |t.cpu|
    decreases |keys|
  {
    hide AccountedTo, EnsureOne;
    if keys != [] {
      AccountedShaped(t);
      EnsureOneShaped(t, keys[0]);
      EnsureOneAccounted(t, keys[0]);
      EnsureAllAccounted(EnsureOne(t, keys[0]).state, keys[1..]);
    }
  }

  lemma AccountedShaped<T>(t: Tier<T>)
    requires Accounted(t)
    ensures Shaped(t)
  {
  }

  lemma RecencyAccounted<T>(t: Tier<T>, ids: seq<Key>, keep: seq<Key>)
    requires Accounted(t)
    ensures Accounted(Touched(t, ids, keep)) && |Touched(t, ids, keep).cpu| == |t.cpu|
  {
    hide PoolOk, Lru.Valid, AllSized;
    TouchedShaped(t, ids, keep);
  }

  lemma SelectionAccounted<T>(t: Tier<T>, seqId: nat, blocks: set<nat>)
    requires Accounted(t)
    ensures Accounted(SetPrevSelected(t, seqId, blocks)) && |SetPrevSelected(t, seqId, blocks).cpu| == |t.cpu|
  {
    hide PoolOk, Lru.Valid, AllSized;
  }

  lemma {:induction false} PrefetchAccounted<T>(t: Tier<T>, keys: seq<Key>)
    requires Accounted(t) && Prefetch(t, keys).Ok?
    ensures Accounted(Prefetch(t, keys).state) && |Prefetch(t, keys).state.cpu| == |t.cpu|
    decreases |keys|
  {
    hide PoolOk, Lru.Valid, AllSized, EnsureOne;
    if keys != [] {
      EnsureOneShaped(t, keys[0]);
      EnsureOneAccounted(t, keys[0]);
      var u := EnsureOne(t, keys[0]).state;
      DemotedShaped(u, keys[0]);
      PrefetchAccounted(Demoted(u, keys[0]), keys[1..]);
    }
  }

  lemma StageAccounted<T>(t: Tier<T>, key: Key, rows: KV<T>)
    requires Accounted(t) && key !in t.cpuSlots && |rows.k| == |rows.v| <= t.blockSize && Stage(t, key, rows).Ok?
    ensures Accounted(Stage(t, key, rows).state) && |Stage(t, key, rows).state.cpu| == |t.cpu|
  {
    hide PoolOk, Lru.Valid, Place, Over;
    PlaceShaped(t, key, {});
    PlaceAccounted(t, key, {}, |t.cpu|);
    var Placed(u, slot) := Place(t, key, {});
    assert Sized(u.gpu[slot], u.blockSize);
    var w := Written(u, slot, Over(rows, u.gpu[slot]), key.block);
  }

  /** The hand-over of one new prompt block, kept or sent out. */
  lemma TrimBlockAccounted<T>(t: Tier<T>, key: Key, kv: KV<T>, kept: bool)
    requires Accounted(t) && Sized(kv, t.blockSize) && TrimBlock(t, key, kv, kept).Ok?
    requires key !in t.lru.slot && key !in Backing(t)
    ensures Accounted(TrimBlock(t, key, kv, kept).state)
  {
    hide PoolOk, Lru.Valid, AllSized, Add, Mirror;
    TrimBlockShaped(t, key, kv, kept);
    if kept {
      AddValid(t.lru, key, {});
      var a := Add(t.lru, key, {}).value;
      AddAccounted(t, key, a, |t.cpu|);
      if t.writeThrough { MirrorAccounted(Written(t.(lru := a.lru), a.slot, kv, key.block), key, kv); }
    } else if t.writeThrough {
      MirrorAccounted(t, key, kv);
    } else {
      StoreAccounted(t, key, kv);
    }
  }

  lemma {:induction false} TrimFromAccounted<T>(t: Tier<T>, p: Plain<T>, s: nat, blocks: seq<KV<T>>, keepFrom: nat,
                                                b: nat)
    requires Accounted(t) && Represents(t, p) && AllSized(blocks, t.blockSize) && b <= |blocks|
    requires forall i :: b <= i < |blocks| ==> Key(s, i) !in p
    requires TrimFrom(t, s, blocks, keepFrom, b).Ok?
    ensures Accounted(TrimFrom(t, s, blocks, keepFrom, b).state)
    decreases |blocks| - b
  {
    hide PoolOk, Lru.Valid, ArenaHolds, HostHolds, TrimBlock, AccountedTo;
    if b < |blocks| {
      var key, kept := Key(s, b), b >= keepFrom;
      FreshNowhere(t, p, key);
      TrimBlockAccounted(t, key, blocks[b], kept);
      TrimBlockShaped(t, key, blocks[b], kept);
      TrimBlockStored(t, p, key, blocks[b], kept);
      TrimFromAccounted(TrimBlock(t, key, blocks[b], kept).state, p[key := blocks[b]], s, blocks, keepFrom, b + 1);
    }
  }

  lemma TrimAccounted<T>(t: Tier<T>, p: Plain<T>, s: nat, blocks: seq<KV<T>>)
    requires Accounted(t) && Represents(t, p) && AllSized(blocks, t.blockSize) && Trim(t, s, blocks).Ok?
    requires s !in t.trimmed ==> forall i :: 0 <= i < |blocks| ==> Key(s, i) !in p
    ensures Accounted(Trim(t, s, blocks).state) && |Trim(t, s, blocks).state.cpu| == |t.cpu|
  {
    hide PoolOk, Lru.Valid, ArenaHolds, HostHolds, TrimFrom;
    if s !in t.trimmed {
      var u, keepFrom := t.(trimmed := t.trimmed + {s}), KeepFrom(|blocks|, t.lru.capacity);
      TrimFromAccounted(u, p, s, blocks, keepFrom, 0);
      TrimFromShaped(u, s, blocks, keepFrom, 0);
    }
  }

  lemma IngestAccounted<T>(t: Tier<T>, p: Plain<T>, s: nat, blocks: seq<KV<T>>, tail: KV<T>)
    requires Accounted(t) && Represents(t, p) && AllSized(blocks, t.blockSize) && |tail.k| == |tail.v| < t.blockSize
    requires s !in t.trimmed ==> forall i :: 0 <= i <= |blocks| ==> Key(s, i) !in p
    requires Ingest(t, s, blocks, tail).Ok?
    ensures Accounted(Ingest(t, s, blocks, tail).state) && |Ingest(t, s, blocks, tail).state.cpu| == |t.cpu|
  {
    hide PoolOk, Lru.Valid, ArenaHolds, HostHolds, Trim, Stage, AccountedTo;
    if s !in t.trimmed {
      TrimAccounted(t, p, s, blocks);
      TrimStored(t, p, s, blocks);
      TrimShaped(t, s, blocks);
      if |tail.k| > 0 {
        WithBlocksKeys(p, s, blocks, 0, Key(s, |blocks|));
        FreshNowhere(Trim(t, s, blocks).state, WithBlocks(p, s, blocks, 0), Key(s, |blocks|));
        StageAccounted(Trim(t, s, blocks).state, Key(s, |blocks|), tail);
      }
    }
  }

  // ------------------------------------------------------------------ whole runs

  /** A spilled block is reloaded before it is written again. */
  ghost predicate Unspilled<T>(t: Tier<T>, op: Op<T>) {
    match op
    case OpFill(key, _) => key !in t.cpuSlots
    case OpLive(key, _) => key !in t.cpuSlots
    case OpAppend(seqId, pos, _, _) => t.blockSize > 0 ==> Key(seqId, pos / t.blockSize) !in t.cpuSlots
    case _ => true
  }

  /** Every operation keeps every host slot accounted for. */
  lemma StepConserves<T>(t: Tier<T>, p: Plain<T>, op: Op<T>)
    requires Accounted(t) && Represents(t, p) && WellShaped(t, op) && Disciplined(t, p, op) && Unspilled(t, op)
    requires Step(t, op).Ok?
    ensures Accounted(Step(t, op).state) && |Step(t, op).state.cpu| == |t.cpu|
  {
    hide PoolOk, AccountedTo, ArenaHolds, HostHolds, Lru.Valid, Fill;
    hide WriteLive, AppendAt, EnsureAll, Prefetch, Trim, Ingest;
    hide Release, SetPrevSelected, Touched;
    match op
    case OpFill(key, kv) => WriteAccounted(t, key, kv);
    case OpLive(key, kv) => WriteAccounted(t, key, kv);
    case OpAppend(seqId, pos, kRow, vRow) =>
      AppendAccounted(t, Key(seqId, pos / t.blockSize), pos % t.blockSize, kRow, vRow);
    case OpEnsure(seqId, ids, keep) =>
      RecencyAccounted(t, KeysOf(seqId, ids), KeysOf(seqId, keep));
      EnsureAllAccounted(Touched(t, KeysOf(seqId, ids), KeysOf(seqId, keep)), KeysOf(seqId, ids));
    case OpPrefetch(seqId, ids) => PrefetchAccounted(t, KeysOf(seqId, ids));
    case OpPrevSelected(seqId, blocks) => SelectionAccounted(t, seqId, blocks);
    case OpTrim(seqId, blocks) => TrimAccounted(t, p, seqId, blocks);
    case OpIngest(seqId, blocks, tail) => IngestAccounted(t, p, seqId, blocks, tail);
    case OpRelease(seqId, hostKeys) => ReleaseAccounted(t, seqId, hostKeys);
  }

  /** A new layer has all its host slots on the free list. */
  lemma NewAccounted<T>(t: Tier<T>)
    requires Shaped(t) && New(t)
    ensures Accounted(t) && Represents(t, map[])
  {
    hide PoolOk, AllSized;
    HeldKeys(t.lru);
    EmptyRepresents(t);
    assert Backing(t).Keys == {};
  }

  /** Over a whole run from a new layer, whatever sequences it serves, no host slot is lost. */
  lemma {:induction false} RunConserves<T>(ts: seq<Tier<T>>, ps: seq<Plain<T>>, ops: seq<Op<T>>, n: nat)
    requires Run(ts, ps, ops) && n <= |ops| && Shaped(ts[0]) && New(ts[0]) && ps[0] == map[]
    requires forall i :: 0 <= i < |ops| ==> Unspilled(ts[i], ops[i])
    ensures Accounted(ts[n]) && |ts[n].cpu| == |ts[0].cpu|
    decreases n
  {
    hide AccountedTo, StoredBut, Step, PlainStep, Disciplined, WellShaped, Unspilled, New;
    NewAccounted(ts[0]);
    if n > 0 {
      RunConserves(ts, ps, ops, n - 1);
      RunRefines(ts, ps, ops, n - 1);
      assert Follows(ts[n - 1], ps[n - 1], ops[n - 1], ts[n], ps[n]);
      StepConserves(ts[n - 1], ps[n - 1], ops[n - 1]);
    }
  }

  /**
   Once the last sequence with host copies is released, every host slot is free again: no request leaks pool space.
   */
  lemma ReleasedPoolIsWhole<T>(ts: seq<Tier<T>>, ps: seq<Plain<T>>, ops: seq<Op<T>>, s: nat, hostKeys: seq<Key>)
    requires Run(ts, ps, ops) && Shaped(ts[0]) && New(ts[0]) && ps[0] == map[]
    requires forall i :: 0 <= i < |ops| ==> Unspilled(ts[i], ops[i])
    requires ListsCopies(hostKeys, Backing(ts[|ops|]), s) && forall k :: k in Backing(ts[|ops|]) ==> k.seqId == s
    ensures |Release(ts[|ops|], s, hostKeys).cpuFree| == |ts[0].cpu|
  {
    hide PoolOk, Lru.Valid, AllSized, Follows, Release, New, Unspilled;
    var t := ts[|ops|];
    RunConserves(ts, ps, ops, |ops|);
    ReleaseAccounted(t, s, hostKeys);
    ReleaseShaped(t, s, hostKeys);
    assert Backing(Release(t, s, hostKeys)).Keys == {};
  }

  /**
   A slot lost: in a one-slot arena holding `a`, spilled block `b` is written without being reloaded and then
   evicted by a new block `c`; its first host slot is neither free nor recorded any more.
   */
  lemma RewrittenSpillLeaks<T>(t: Tier<T>, a: Key, b: Key, c: Key, kv: KV<T>)
    requires Accounted(t) && !t.writeThrough && Sized(kv, t.blockSize)
    requires t.lru.order == [a] && t.lru.free == [] && |t.cpuFree| >= 2 && MayEvict(t.residency, a.block)
    requires b in t.cpuSlots && c !in t.cpuSlots && c != a
    ensures Fill(t, b, kv).Ok?
    ensures var u := Fill(t, b, kv).state;
            && Shaped(u) && Fill(u, c, kv).Ok?
            && var w := Fill(u, c, kv).state; |w.cpuFree| + |Backing(w).Keys| == |t.cpu| - 1
  {
    hide PoolOk, AllSized, Lru.Valid, Fill;
    HeldKeys(t.lru);
    assert a in Elems(t.lru.order);
    OneSlotSwap(t, a, b, kv);
    var u := Fill(t, b, kv).state;
    OneSlotSwap(u, b, c, kv);
    var w := Fill(u, c, kv).state;
    OneMore(t.cpuSlots.Keys, w.cpuSlots.Keys, a);
  }

  lemma OneSlotSwap<T>(t: Tier<T>, a: Key, b: Key, kv: KV<T>)
    requires Shaped(t) && !t.writeThrough && Sized(kv, t.blockSize)
    requires t.lru.order == [a] && t.lru.free == [] && t.cpuFree != [] && MayEvict(t.residency, a.block) && b != a
    ensures Fill(t, b, kv).Ok?
    ensures var u := Fill(t, b, kv).state;
            && Shaped(u) && !u.writeThrough && u.blockSize == t.blockSize && u.lru.order == [b] && u.lru.free == []
            && |u.cpuFree| == |t.cpuFree| - 1 && MayEvict(u.residency, b.block)
            && u.cpuSlots.Keys == t.cpuSlots.Keys + {a}
  {
    hide PoolOk, AllSized, Lru.Valid, Spill, Add;
    OneSlotAdd(t.lru, a, b);
    var m := Add(t.lru, b, {}).value;
    var u := t.(lru := m.lru);
    SpillFails(u, a, m.slot);
    SpillShaped(u, a, m.slot);
    SpillBooks(u, a, m.slot);
  }

  lemma OneSlotAdd(l: Lru, a: Key, b: Key)
    requires l.Valid() && l.order == [a] && l.free == [] && b != a
    ensures Add(l, b, {}).Some? && AddedRight(l, b, Add(l, b, {}).value)
    ensures Add(l, b, {}).value.evicted == Some(a) && Add(l, b, {}).value.lru.order == [b]
  {
    assert a in Elems(l.order) && b !in Elems(l.order);
    AddValid(l, b, {});
  }
}
