/**
 Rows that get lost. The live block must stay in the arena: a token is written into whatever arena slot the block gets,
 without reading its earlier rows back from the host. And a mirrored block must not change: its mirror is never
 written again.
 */
module TierLive {
  import opened Lists
  import opened SlotMap
  import opened TierModel
  import opened TierTransparency
  import opened TierFailure
  import opened TierAccounts

  /**
   The slot the next token of `key` is written to: its own, the last freed one, or that of the block first in line for
   eviction.
   */
  function LandingSlot(l: Lru, key: Key): (r: Option<nat>)
    requires l.Valid()
  {
    if key in l.slot then Some(l.slot[key])
    else if l.free != [] then Some(l.free[|l.free| - 1])
    else if l.order == [] then None
    else
      assert Victim(l.order, {}) in Elems(l.order);
      Some(l.slot[Victim(l.order, {})])
  }

  lemma LandsThere(l: Lru, key: Key)
    requires l.Valid() && Add(l, key, {}).Some?
    ensures LandingSlot(l, key) == Some(Add(l, key, {}).value.slot)
  {
    AddValid(l, key, {});
  }

  /** The earlier rows of the live block already lie in the slot its next token is written to. */
  ghost predicate RowsAwait<T>(t: Tier<T>, rows: KV<T>, key: Key)
    requires Shaped(t)
  {
    match LandingSlot(t.lru, key)
    case None => false
    case Some(slot) => slot < |t.gpu| && Within(rows, t.gpu[slot])
  }

  /**
   Appending to a block with earlier rows is transparent exactly when those rows already lie in the slot the token is
   written to.
   */
  lemma AppendKeepsRowsIff<T>(t: Tier<T>, p: Plain<T>, key: Key, offset: nat, kRow: T, vRow: T)
    requires Represents(t, p) && 0 < offset < t.blockSize && key in p && |p[key].k| == offset == |p[key].v|
    requires AppendAt(t, key, offset, kRow, vRow).Ok?
    requires t.writeThrough ==> key !in t.hostSlots
    ensures Represents(AppendAt(t, key, offset, kRow, vRow).state, p[key := Grown(p, key, kRow, vRow, offset)])
            <==> RowsAwait(t, p[key], key)
  {
    hide PoolOk, Lru.Valid, ArenaHolds, HostHolds, Mirror, Place, WithRow, AllSized, AppendAt;
    var u, grown := AppendAt(t, key, offset, kRow, vRow).state, Grown(p, key, kRow, vRow, offset);
    var slot := AppendLands(t, key, offset, kRow, vRow);
    GrownIff(p, key, kRow, vRow, offset, t.gpu[slot]);
    if Represents(u, p[key := grown]) { ResidentRows(u, p[key := grown], key); }
    if RowsAwait(t, p[key], key) { AwaitedStored(t, p, key, offset, kRow, vRow, slot); }
  }

  /** Where a token lands and what the slot holds afterwards. */
  lemma AppendLands<T>(t: Tier<T>, key: Key, offset: nat, kRow: T, vRow: T) returns (slot: nat)
    requires Shaped(t) && offset < t.blockSize && AppendAt(t, key, offset, kRow, vRow).Ok?
    ensures LandingSlot(t.lru, key) == Some(slot) && slot < |t.gpu| && Sized(t.gpu[slot], t.blockSize)
    ensures var u := AppendAt(t, key, offset, kRow, vRow).state;
            key in u.lru.slot && u.lru.slot[key] == slot < |u.gpu| &&
                u.gpu[slot] == WithRow(t.gpu[slot], offset, kRow, vRow)
    ensures Place(t, key, {}).Placed? && Place(t, key, {}).slot == slot
  {
    hide PoolOk, Lru.Valid, Mirror, WithRow, Spill, Add;
    PlaceShaped(t, key, {});
    AddValid(t.lru, key, {});
    LandsThere(t.lru, key);
    var Placed(w, at) := Place(t, key, {});
    slot := at;
    assert Sized(t.gpu[slot], t.blockSize);
    var kv := WithRow(t.gpu[slot], offset, kRow, vRow);
    if offset == t.blockSize - 1 && t.writeThrough { MirrorGpu(Written(w, slot, kv, key.block), key, kv); }
  }

  lemma AwaitedStored<T>(t: Tier<T>, p: Plain<T>, key: Key, offset: nat, kRow: T, vRow: T, slot: nat)
    requires Represents(t, p) && 0 < offset < t.blockSize && key in p && |p[key].k| == offset == |p[key].v|
    requires AppendAt(t, key, offset, kRow, vRow).Ok? && Place(t, key, {}).Placed? &&
             Place(t, key, {}).slot == slot < |t.gpu|
    requires t.writeThrough ==> key !in t.hostSlots
    requires Within(p[key], t.gpu[slot])
    ensures Represents(AppendAt(t, key, offset, kRow, vRow).state, p[key := Grown(p, key, kRow, vRow, offset)])
  {
    hide PoolOk, Lru.Valid, HostHolds, ArenaHolds, Place, Mirror, WithRow, Grown;
    LessToKeep(t, p, key);
    PlaceShaped(t, key, {});
    PlaceStored(t, p, key, {});
    var u := Place(t, key, {}).state;
    assert Sized(u.gpu[slot], t.blockSize);
    RowAdded(p, key, kRow, vRow, offset, u.gpu[slot]);
    var kv, want := WithRow(u.gpu[slot], offset, kRow, vRow), Grown(p, key, kRow, vRow, offset);
    WrittenStored(u, p, key, kv, want);
    if offset == t.blockSize - 1 && t.writeThrough {
      MirrorStored(Written(u, slot, kv, key.block), p[key := want], key, kv);
    }
  }

  lemma MirrorGpu<T>(t: Tier<T>, key: Key, kv: KV<T>)
    requires Shaped(t) && t.writeThrough && Mirror(t, key, kv).Ok?
    ensures Mirror(t, key, kv).state.gpu == t.gpu && Mirror(t, key, kv).state.lru == t.lru
  {
  }

  lemma GrownIff<T>(p: Plain<T>, key: Key, kRow: T, vRow: T, offset: nat, have: KV<T>)
    requires key in p && 0 < offset && |p[key].k| == offset == |p[key].v| && offset < |have.k| && offset < |have.v|
    ensures Within(Grown(p, key, kRow, vRow, offset), WithRow(have, offset, kRow, vRow)) <==> Within(p[key], have)
  {
    RowAddedIff(p[key].k, have.k, kRow);
    RowAddedIff(p[key].v, have.v, vRow);
  }

  lemma RowAddedIff<T>(want: seq<T>, have: seq<T>, row: T)
    requires |want| < |have|
    ensures want + [row] <= have[|want| := row] <==> want <= have
  {
    var grown, put := want + [row], have[|want| := row];
    if grown <= put {
      forall i | 0 <= i < |want| ensures want[i] == have[i] { assert grown[i] == put[i]; }
    }
  }

  /**
   In terms of who owned the slot: a block still in the arena keeps its rows; one that was evicted keeps them
   exactly when the full block now giving up its slot starts with the same rows.
   */
  lemma OwnerDecides<T>(t: Tier<T>, p: Plain<T>, key: Key)
    requires Represents(t, p) && key in p
    ensures key in t.lru.slot ==> RowsAwait(t, p[key], key)
    ensures key !in t.lru.slot && t.lru.free == [] && t.lru.order != [] ==>
              var v := Victim(t.lru.order, {});
              v in p && (Sized(p[v], t.blockSize) ==> (RowsAwait(t, p[key], key) <==> Within(p[key], p[v])))
  {
    hide PoolOk, ArenaHolds, HostHolds;
    if key in t.lru.slot {
      ResidentRows(t, p, key);
    } else if t.lru.free == [] && t.lru.order != [] {
      var v := Victim(t.lru.order, {});
      assert v in Elems(t.lru.order);
      ResidentRows(t, p, v);
      assert Sized(t.gpu[t.lru.slot[v]], t.blockSize);
      if Sized(p[v], t.blockSize) { assert p[v] == t.gpu[t.lru.slot[v]]; }
    }
  }

  /**
   Rows lost: in a write-back arena of one slot, another block `x` pushes the live block out, and its next token lands
   on the rows of `x`. The live block then starts with the first row of `x`.
   */
  lemma EvictedLiveBlockLosesRows<T>(t: Tier<T>, p: Plain<T>, live: Key, x: Key, kv: KV<T>, kRow: T, vRow: T)
    requires Represents(t, p) && !t.writeThrough && t.blockSize > 1 && Sized(kv, t.blockSize) && x != live
    requires t.lru.order == [live] && t.lru.free == [] && |t.cpuFree| >= 2 && MayEvict(t.residency, live.block)
    requires live in p && |p[live].k| == 1 == |p[live].v| && p[live].k[0] != kv.k[0]
    ensures Fill(t, x, kv).Ok?
    ensures var u := Fill(t, x, kv).state; var q := p[x := kv];
            && Represents(u, q) && AppendAt(u, live, 1, kRow, vRow).Ok?
            && var w := AppendAt(u, live, 1, kRow, vRow).state;
               && !Represents(w, q[live := Grown(q, live, kRow, vRow, 1)])
               && live in w.lru.slot && w.lru.slot[live] < |w.gpu| &&
                  w.gpu[w.lru.slot[live]] == KV(kv.k[1 := kRow], kv.v[1 := vRow])
  {
    hide PoolOk, AllSized, ArenaHolds, HostHolds, Fill, AppendAt;
    OneSlotSwap(t, live, x, kv);
    FillStored(t, p, x, kv);
    var u, q := Fill(t, x, kv).state, p[x := kv];
    assert x in Elems(u.lru.order) && live !in Elems(u.lru.order);
    AppendFails(u, live, 1, kRow, vRow);
    AppendKeepsRowsIff(u, q, live, 1, kRow, vRow);
    OwnerDecides(u, q, live);
    var slot := AppendLands(u, live, 1, kRow, vRow);
    ResidentRows(u, q, x);
    assert u.gpu[slot] == kv;
  }

  // ------------------------------------------------------------------ a mirror is made once

  lemma RefillInPlace<T>(t: Tier<T>, key: Key, kv: KV<T>)
    requires Shaped(t) && t.writeThrough && Sized(kv, t.blockSize) && key in t.lru.slot && key in t.hostSlots &&
             t.lru.order == [key]
    ensures Fill(t, key, kv).Ok?
    ensures var u := Fill(t, key, kv).state;
            && Shaped(u) && SameMode(u, t) && u.lru.order == [key] && u.lru.free == t.lru.free &&
               u.hostSlots == t.hostSlots
            && u.cpu == t.cpu && u.cpuFree == t.cpuFree && MayEvict(u.residency, key.block)
  {
    hide PoolOk, AllSized, Lru.Valid;
    PlaceShaped(t, key, {});
    AddValid(t.lru, key, {});
  }

  /** A one-slot write-through arena drops mirrored block `a` for new block `b`, which is mirrored in turn. */
  lemma DropForNew<T>(t: Tier<T>, a: Key, b: Key, kv: KV<T>)
    requires Shaped(t) && t.writeThrough && Sized(kv, t.blockSize) && t.lru.order == [a] && t.lru.free == []
    requires a in t.hostSlots && b !in t.hostSlots && a.block != b.block && t.cpuFree != [] &&
             MayEvict(t.residency, a.block)
    ensures Fill(t, b, kv).Ok?
    ensures var u := Fill(t, b, kv).state;
            && Shaped(u) && u.writeThrough && u.lru.order == [b] && u.lru.free == [] && a in u.hostSlots &&
               b in u.hostSlots
            && a !in u.lru.slot && MayLoad(u.residency, a.block) && MayEvict(u.residency, b.block)
            && u.hostSlots[a] < |u.cpu| && t.hostSlots[a] < |t.cpu| && u.cpu[u.hostSlots[a]] == t.cpu[t.hostSlots[a]]
  {
    hide AllSized, Lru.Valid, Spill, Add, PoolOk, Mirror;
    OneSlotAdd(t.lru, a, b);
    var m := Add(t.lru, b, {}).value;
    SpillFails(t.(lru := m.lru), a, m.slot);
    PlaceShaped(t, b, {});
    PlaceKeepsMirror(t, b, {});
    PlaceFails(t, b, {});
    var Placed(u, slot) := Place(t, b, {});
    PlaceLru(t, b, {});
    var w := Written(u, slot, kv, b.block);
    MirrorFails(w, b, kv);
    MirrorShaped(w, b, kv);
    MirrorGpu(w, b, kv);
    OtherMirrorsStay(w, b, kv, a);
    AddMoved(t.lru, b, m);
  }

  lemma OtherMirrorsStay<T>(t: Tier<T>, key: Key, kv: KV<T>, a: Key)
    requires Shaped(t) && t.writeThrough && Mirror(t, key, kv).Ok? && a in t.hostSlots && a != key
    ensures var u := Mirror(t, key, kv).state;
            a in u.hostSlots && u.hostSlots[a] == t.hostSlots[a] < |t.cpu| == |u.cpu| &&
                u.cpu[u.hostSlots[a]] == t.cpu[t.hostSlots[a]]
  {
    hide AllSized, Lru.Valid;
    if key !in t.hostSlots { PoolTake(|t.cpu|, t.cpuFree, Backing(t), key); }
    assert t.hostSlots[a] in t.hostSlots.Values;
  }

  lemma ReloadsMirror<T>(t: Tier<T>, key: Key)
    requires Shaped(t) && t.writeThrough && key !in t.lru.slot && key in t.hostSlots && EnsureOne(t, key).Ok?
    ensures var u := EnsureOne(t, key).state;
            && key in u.lru.slot && u.lru.slot[key] < |u.gpu| && t.hostSlots[key] < |t.cpu|
            && u.gpu[u.lru.slot[key]] == t.cpu[t.hostSlots[key]]
  {
    hide PoolOk, AllSized, Lru.Valid, Place;
    TakenShaped(t, key);
    PoolForget(|t.cpu|, t.cpuFree, Backing(t), key);
    var t0 := t.(cpuSlots := t.cpuSlots - {key});
    assert t0 == t;
    PlaceShaped(t, key, ProtectedKeys(t, key.seqId));
    PlaceKeepsMirror(t, key, ProtectedKeys(t, key.seqId));
  }

  /**
   A refill that does not last: in a one-slot arena, mirrored block `key` is filled with new rows, pushed out by `x` and
   asked for again. It comes back with the rows it was first mirrored with, whatever the new ones were.
   */
  lemma RefillReloadsOldRows<T>(t: Tier<T>, key: Key, x: Key, kv: KV<T>, other: KV<T>)
    requires Shaped(t) && t.writeThrough && Sized(kv, t.blockSize) && Sized(other, t.blockSize)
    requires t.lru.order == [key] && t.lru.free == [] && key in t.lru.slot && key in t.hostSlots &&
             t.hostSlots[key] < |t.cpu|
    requires x !in t.hostSlots && x.block != key.block && t.cpuFree != []
    ensures Fill(t, key, kv).Ok? && Shaped(Fill(t, key, kv).state) && Fill(t, key, kv).state.blockSize == t.blockSize
    ensures var u := Fill(t, key, kv).state;
            && Fill(u, x, other).Ok? && Shaped(Fill(u, x, other).state)
            && var r := EnsureOne(Fill(u, x, other).state, key);
               r.Ok? && key in r.state.lru.slot && r.state.lru.slot[key] < |r.state.gpu|
               && r.state.gpu[r.state.lru.slot[key]] == t.cpu[t.hostSlots[key]]
  {
    hide PoolOk, AllSized, Lru.Valid, Fill, EnsureOne;
    RefillInPlace(t, key, kv);
    var u := Fill(t, key, kv).state;
    DropForNew(u, key, x, other);
    var w := Fill(u, x, other).state;
    ReloadOkIff(w, key);
    ReloadsMirror(w, key);
  }
}
