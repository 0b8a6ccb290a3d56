/**
 Where blocks are after each operation: transparency says that nothing is lost, these results say that a write
 lands in the arena, that a trim keeps the last blocks there, that a prefetched guess is the first to go, and that
 a release forgets one sequence and no other.
 */
module TierPlacement {
  import opened Lists
  import opened SlotMap
  import opened WorkingSet
  import opened Speculation
  import opened TierModel
  import opened TierTransparency
  import opened TierFailure

  ghost predicate InArena<T>(t: Tier<T>, key: Key, kv: KV<T>) {
    key in t.lru.slot && t.lru.slot[key] < |t.gpu| && t.gpu[t.lru.slot[key]] == kv
  }

  /** At most one other key, which a full arena had to give up, has left the arena. */
  ghost predicate OnlyVictimLeft<T>(t: Tier<T>, u: Tier<T>, key: Key) {
    && (forall x :: x in u.lru.slot ==> x == key || x in t.lru.slot)
    && forall x, y :: x in t.lru.slot && x !in u.lru.slot && y in t.lru.slot && y !in u.lru.slot ==> x == y
  }

  lemma PlaceMoves<T>(t: Tier<T>, key: Key, protected: set<Key>)
    requires Shaped(t) && Place(t, key, protected).Placed?
    ensures var Placed(u, slot) := Place(t, key, protected);
            OnlyVictimLeft(t, u, key) && key in u.lru.slot &&
                (t.lru.free != [] || key in t.lru.slot ==> t.lru.slot.Keys <= u.lru.slot.Keys)
  {
    hide PoolOk, Lru.Valid, Spill, Add;
    PlaceShaped(t, key, protected);
    AddValid(t.lru, key, protected);
    var a := Add(t.lru, key, protected).value;
    AddMoved(t.lru, key, a);
    assert a.evicted.Some? ==> Spill(t.(lru := a.lru), a.evicted.value, a.slot).Ok?;
    if a.evicted.Some? { SpillShaped(t.(lru := a.lru), a.evicted.value, a.slot); }
    assert Place(t, key, protected).state.lru == a.lru;
  }

  /** A filled block sits in the arena, mirrored under write-through; a live block too, but is never mirrored. */
  lemma WritesLand<T>(t: Tier<T>, key: Key, kv: KV<T>)
    requires Shaped(t) && Sized(kv, t.blockSize)
    ensures Fill(t, key, kv).Ok? ==> var u := Fill(t, key, kv).state;
              InArena(u, key, kv) && OnlyVictimLeft(t, u, key) && (t.writeThrough ==> key in u.hostSlots)
    ensures WriteLive(t, key, kv).Ok? ==> var u := WriteLive(t, key, kv).state;
              InArena(u, key, kv) && OnlyVictimLeft(t, u, key) && u.hostSlots == t.hostSlots
  {
    hide PoolOk, Lru.Valid, Place, OnlyVictimLeft;
    PlaceShaped(t, key, {});
    if Place(t, key, {}).Placed? {
      PlaceMoves(t, key, {});
      PlaceHostSlots(t, key, {});
      var Placed(u, slot) := Place(t, key, {});
      var w := Written(u, slot, kv, key.block);
      SameArena(t, u, w, key);
      if t.writeThrough && Mirror(w, key, kv).Ok? { SameArena(t, w, Mirror(w, key, kv).state, key); }
    }
  }

  lemma SameArena<T>(t: Tier<T>, u: Tier<T>, w: Tier<T>, key: Key)
    requires OnlyVictimLeft(t, u, key) && w.lru == u.lru
    ensures OnlyVictimLeft(t, w, key)
  {
  }

  // ------------------------------------------------------------------ reload and prefetch

  lemma EnsureOneLands<T>(t: Tier<T>, key: Key)
    requires Shaped(t) && EnsureOne(t, key).Ok?
    ensures key in EnsureOne(t, key).state.lru.slot && OnlyVictimLeft(t, EnsureOne(t, key).state, key)
  {
    hide PoolOk, Lru.Valid, Place, OnlyVictimLeft;
    if key in t.lru.slot {
      TouchedArena(t, key);
    } else {
      TakenShaped(t, key);
      var t0 := t.(cpuSlots := t.cpuSlots - {key});
      PlaceShaped(t0, key, ProtectedKeys(t, key.seqId));
      PlaceMoves(t0, key, ProtectedKeys(t, key.seqId));
      var u := Place(t0, key, ProtectedKeys(t, key.seqId)).state;
      SameBefore(t0, t, u, key);
      SameArena(t, u, EnsureOne(t, key).state, key);
    }
  }

  lemma TouchedArena<T>(t: Tier<T>, key: Key)
    requires key in t.lru.slot
    ensures OnlyVictimLeft(t, t.(lru := Touch(t.lru, key)), key)
  {
  }

  lemma SameBefore<T>(t0: Tier<T>, t: Tier<T>, u: Tier<T>, key: Key)
    requires OnlyVictimLeft(t0, u, key) && t0.lru == t.lru
    ensures OnlyVictimLeft(t, u, key)
  {
  }

  /** A prefetch leaves the slot map that its guesses make of it. */
  lemma {:induction false} PrefetchIsSpeculation<T>(t: Tier<T>, s: nat, keys: seq<Key>)
    requires Shaped(t) && Prefetch(t, keys).Ok? && forall k :: k in keys ==> k.seqId == s
    ensures Prefetch(t, keys).state.lru == Speculate(t.lru, keys, ProtectedKeys(t, s), t.prefetchTouch).lru
    decreases |keys|
  {
    hide PoolOk, Lru.Valid, AllSized, EnsureOne, Add;
    if keys != [] {
      assert keys[0] in keys && forall k :: k in keys[1..] ==> k in keys;
      EnsureOneLru(t, keys[0]);
      EnsureOneShaped(t, keys[0]);
      EnsureOneLands(t, keys[0]);
      var u := EnsureOne(t, keys[0]).state;
      DemotedShaped(u, keys[0]);
      PrefetchIsSpeculation(Demoted(u, keys[0]), s, keys[1..]);
    }
  }

  /**
   Guesses replace one another: untrusted, into a full arena, whatever missing blocks are prefetched, the last one takes
   the slot of the block that was first in line and all the others are gone from the arena again.
   */
  lemma OnlyLastPrefetchStays<T>(t: Tier<T>, s: nat, keys: seq<Key>)
    requires Shaped(t) && !t.mixture && !t.prefetchTouch && t.lru.free == [] && keys != []
    requires forall k :: k in keys ==> k.seqId == s && k !in t.lru.slot
    requires Prefetch(t, keys).Ok?
    ensures t.lru.order != [] && t.lru.order[0] in t.lru.slot
    ensures var last, l := keys[|keys| - 1], Prefetch(t, keys).state.lru;
            && l.order == [last] + t.lru.order[1..]
            && l.slot == (t.lru.slot - {t.lru.order[0]})[last := t.lru.slot[t.lru.order[0]]]
  {
    hide PoolOk, AllSized, Lru.Valid, EnsureOne, Speculate;
    PrefetchIsSpeculation(t, s, keys);
    EnsureOneLru(t, keys[0]);
    assert keys[0] in keys;
    FullNotEmpty(t.lru, keys[0]);
    OnlyLastGuessSurvives(t.lru, keys);
  }

  lemma FullNotEmpty(l: Lru, k: Key)
    requires l.Valid() && l.free == [] && Add(l, k, {}).Some? && k !in l.slot
    ensures l.order != []
  {
  }

  /** Under the mixture ordering a sequence protects exactly the selection last remembered for it; otherwise nothing. */
  lemma SelectionProtects<T>(t: Tier<T>, s: nat, blocks: set<nat>, x: Key)
    ensures var u := SetPrevSelected(t, s, blocks);
            && (x in ProtectedKeys(u, s) <==> t.mixture && x.seqId == s && x.block in blocks)
            && forall r :: r != s ==> ProtectedKeys(u, r) == ProtectedKeys(t, r)
  {
    assert t.mixture && x.block in blocks && x.seqId == s ==> x == Key(s, x.block);
  }

  /**
   What remembering a selection is for: a later reload for that sequence leaves every remembered block in the arena,
   as long as some block that was not remembered is there to make room.
   */
  lemma RememberedStaysResident<T>(t: Tier<T>, s: nat, blocks: set<nat>, b: nat, x: Key, other: Key)
    requires Shaped(t) && t.mixture && x in t.lru.slot && x.seqId == s && x.block in blocks
    requires other in t.lru.slot && (other.seqId != s || other.block !in blocks)
    requires Shaped(SetPrevSelected(t, s, blocks)) && EnsureOne(SetPrevSelected(t, s, blocks), Key(s, b)).Ok?
    ensures x in EnsureOne(SetPrevSelected(t, s, blocks), Key(s, b)).state.lru.slot
  {
    hide PoolOk, AllSized, EnsureOne;
    var u, key := SetPrevSelected(t, s, blocks), Key(s, b);
    SelectionProtects(t, s, blocks, x);
    SelectionProtects(t, s, blocks, other);
    EnsureOneLru(u, key);
    AddValid(u.lru, key, ProtectedKeys(u, s));
    assert other in Elems(u.lru.order);
  }

  /** The last block prefetched is resident, and first in line for eviction unless guesses are trusted. */
  lemma {:induction false} PrefetchFirstOut<T>(t: Tier<T>, keys: seq<Key>)
    requires Shaped(t) && keys != [] && Prefetch(t, keys).Ok?
    ensures var u := Prefetch(t, keys).state;
            keys[|keys| - 1] in u.lru.slot && (!t.prefetchTouch ==>
                u.lru.order != [] && u.lru.order[0] == keys[|keys| - 1])
    decreases |keys|
  {
    hide PoolOk, Lru.Valid, EnsureOne;
    EnsureOneShaped(t, keys[0]);
    EnsureOneLands(t, keys[0]);
    var u := EnsureOne(t, keys[0]).state;
    DemotedShaped(u, keys[0]);
    var d := Demoted(u, keys[0]);
    assert d.prefetchTouch == t.prefetchTouch;
    if |keys| > 1 {
      assert keys[1..][|keys| - 2] == keys[|keys| - 1];
      PrefetchFirstOut(d, keys[1..]);
    } else {
      assert keys[1..] == [] && Prefetch(d, []) == Ok(d);
    }
  }

  // ------------------------------------------------------------------ trim

  /** Block `x` is where the trim puts it: kept ones in the arena, the others on the host. */
  ghost predicate Trimmed<T>(t: Tier<T>, key: Key, kept: bool) {
    (if kept then key in t.lru.slot else key in Backing(t)) && (t.writeThrough ==> key in t.hostSlots)
  }

  lemma TrimBlockLands<T>(t: Tier<T>, key: Key, kv: KV<T>, kept: bool)
    requires Shaped(t) && Sized(kv, t.blockSize) && TrimBlock(t, key, kv, kept).Ok?
    ensures var u := TrimBlock(t, key, kv, kept).state;
            && Trimmed(u, key, kept)
            && (forall x :: x in u.lru.slot <==> x in t.lru.slot || (kept && x == key))
            && (forall x :: x in Backing(t) ==> x in Backing(u)) && (forall x :: x in t.hostSlots ==> x in u.hostSlots)
  {
    hide PoolOk, Lru.Valid, AllSized, Add, Mirror;
    if kept {
      AddValid(t.lru, key, {});
      var a := Add(t.lru, key, {}).value;
      if t.writeThrough { MirrorFails(Written(t.(lru := a.lru), a.slot, kv, key.block), key, kv); }
    } else if t.writeThrough {
      MirrorFails(t, key, kv);
    }
  }

  lemma {:induction false} TrimFromLands<T>(t: Tier<T>, seqId: nat, blocks: seq<KV<T>>, keepFrom: nat, b: nat, x: nat)
    requires Shaped(t) && AllSized(blocks, t.blockSize) && b <= |blocks| && x < |blocks|
    requires TrimFrom(t, seqId, blocks, keepFrom, b).Ok?
    requires x < b ==> Trimmed(t, Key(seqId, x), x >= keepFrom)
    requires x < keepFrom ==> Key(seqId, x) !in t.lru.slot
    ensures var u := TrimFrom(t, seqId, blocks, keepFrom, b).state;
            Trimmed(u, Key(seqId, x), x >= keepFrom) && (x < keepFrom ==> Key(seqId, x) !in u.lru.slot)
    decreases |blocks| - b
  {
    hide PoolOk, Lru.Valid, TrimBlock;
    if b < |blocks| {
      var key := Key(seqId, b);
      TrimBlockShaped(t, key, blocks[b], b >= keepFrom);
      TrimBlockLands(t, key, blocks[b], b >= keepFrom);
      TrimFromLands(TrimBlock(t, key, blocks[b], b >= keepFrom).state, seqId, blocks, keepFrom, b + 1, x);
    }
  }

  /**
   After the hand-over the last blocks, one fewer than the arena has slots, are in the arena and all earlier ones
   are on the host: one slot stays free for the live block.
   */
  lemma TrimSplits<T>(t: Tier<T>, seqId: nat, blocks: seq<KV<T>>, x: nat)
    requires Shaped(t) && AllSized(blocks, t.blockSize) && Trim(t, seqId, blocks).Ok? && seqId !in t.trimmed
    requires x < |blocks| && Key(seqId, x) !in t.lru.slot
    ensures var u := Trim(t, seqId, blocks).state; var kept := |blocks| - x < t.lru.capacity;
            && (Key(seqId, x) in u.lru.slot <==> kept)
            && (!kept ==> Key(seqId, x) in Backing(u)) && (t.writeThrough ==> Key(seqId, x) in u.hostSlots)
  {
    hide PoolOk, Lru.Valid, TrimFrom;
    var t0 := t.(trimmed := t.trimmed + {seqId});
    TrimFromShaped(t0, seqId, blocks, KeepFrom(|blocks|, t.lru.capacity), 0);
    TrimFromLands(t0, seqId, blocks, KeepFrom(|blocks|, t.lru.capacity), 0, x);
  }

  // ------------------------------------------------------------------ release

  /** A release drops every arena slot, host copy and protection of its sequence and touches no other. */
  lemma ReleaseExact<T>(t: Tier<T>, seqId: nat, hostKeys: seq<Key>)
    requires Shaped(t) && ListsCopies(hostKeys, Backing(t), seqId)
    ensures var u := Release(t, seqId, hostKeys);
            && (forall x :: x in u.lru.slot <==> x in t.lru.slot && x.seqId != seqId)
            && (forall x :: x in u.lru.slot ==> u.lru.slot[x] == t.lru.slot[x])
            && (forall x :: x in Backing(u) <==> x in Backing(t) && x.seqId != seqId)
            && (forall x :: x in Backing(u) ==> Backing(u)[x] == Backing(t)[x])
            && u.trimmed == t.trimmed - {seqId} && u.gpu == t.gpu && u.cpu == t.cpu
            && seqId !in u.prevSelected && ProtectedKeys(u, seqId) == {}
            && (forall r :: r != seqId ==> ProtectedKeys(u, r) == ProtectedKeys(t, r))
  {
    hide PoolOk, FreeAll;
    var gone := SeqKeys(t.lru.order, seqId);
    FreeAllValid(t.lru, gone);
    HeldKeys(t.lru);
    forall x ensures x in t.lru.slot <==> x in t.lru.order { assert x in t.lru.slot.Keys <==> x in Elems(t.lru.order); }
  }
}
