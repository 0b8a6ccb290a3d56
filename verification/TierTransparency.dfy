/**
 Transparency of the tiered cache: whatever mix of fills, live writes, reloads, prefetches, trims and
 releases a run performs, every block it was given can be read back with the contents last written.
 The reference is a plain map from (sequence, block) to rows.
 */
module TierTransparency {
  import opened Lists
  import opened SlotMap
  import opened WorkingSet
  import opened TierModel

  type Plain<T> = map<Key, KV<T>>

  /** The rows written so far are a prefix of what the buffer holds. */
  ghost predicate Within<T>(want: KV<T>, have: KV<T>) {
    want.k <= have.k && want.v <= have.v
  }

  ghost predicate ArenaHolds<T>(slot: map<Key, nat>, gpu: seq<KV<T>>, p: Plain<T>, but: set<Key>) {
    forall x :: x in slot && x !in but ==> x in p && slot[x] < |gpu| && Within(p[x], gpu[slot[x]])
  }

  ghost predicate HostHolds<T>(at: map<Key, nat>, cpu: seq<KV<T>>, p: Plain<T>, stale: set<Key>) {
    forall x :: x in at && x !in stale ==> x in p && at[x] < |cpu| && Within(p[x], cpu[at[x]])
  }

  /** Host copies that may lag behind the arena: none under write-through, the resident keys otherwise. */
  function Stale<T>(t: Tier<T>): set<Key> {
    if t.writeThrough then {} else t.lru.slot.Keys
  }

  /** Every block of `p` outside `but` is recoverable with the right contents. */
  ghost predicate StoredBut<T>(t: Tier<T>, p: Plain<T>, but: set<Key>) {
    && Shaped(t)
    && ArenaHolds(t.lru.slot, t.gpu, p, but)
    && HostHolds(Backing(t), t.cpu, p, Stale(t))
    && p.Keys - but <= t.lru.slot.Keys + Backing(t).Keys
  }

  /** The tiered state represents the plain map `p`. */
  ghost predicate Represents<T>(t: Tier<T>, p: Plain<T>) {
    StoredBut(t, p, {})
  }

  // ------------------------------------------------------------------ making room

  lemma HostSpilled<T>(at: map<Key, nat>, cpu: seq<KV<T>>, p: Plain<T>, stale: set<Key>, victim: Key, c: nat, kv: KV<T>)
    requires HostHolds(at, cpu, p, stale + {victim}) && c < |cpu| && c !in at.Values
    requires victim in p && Within(p[victim], kv)
    ensures HostHolds(at[victim := c], cpu[c := kv], p, stale)
  {
  }

  lemma HostMoreStale<T>(at: map<Key, nat>, cpu: seq<KV<T>>, p: Plain<T>, stale: set<Key>, stale': set<Key>)
    requires HostHolds(at, cpu, p, stale) && stale <= stale'
    ensures HostHolds(at, cpu, p, stale')
  {
  }

  lemma ArenaMoved<T>(before: map<Key, nat>, after: map<Key, nat>, gpu: seq<KV<T>>, p: Plain<T>, key: Key, slot: nat,
                      evicted: Option<Key>)
    requires Moved(before, after, key, slot, evicted) && ArenaHolds(before, gpu, p, {key})
    ensures ArenaHolds(after, gpu, p, {key})
    ensures evicted.Some? ==> evicted.value in p && slot < |gpu| && Within(p[evicted.value], gpu[slot])
  {
  }

  lemma MovedFacts(before: map<Key, nat>, after: map<Key, nat>, key: Key, slot: nat, evicted: Option<Key>)
    requires Moved(before, after, key, slot, evicted)
    ensures key in after && after[key] == slot
    ensures evicted.Some? ==> evicted.value != key && evicted.value !in after
  {
  }

  lemma KeysMoved(before: map<Key, nat>, after: map<Key, nat>, key: Key, slot: nat, evicted: Option<Key>)
    requires Moved(before, after, key, slot, evicted)
    ensures before.Keys <= after.Keys + (if evicted.Some? then {evicted.value} else {})
  {
  }

  lemma SpillStored<T>(t: Tier<T>, p: Plain<T>, key: Key, victim: Key, slot: nat)
    requires Shaped(t) && key != victim && victim !in t.lru.slot && key in t.lru.slot && slot < |t.gpu|
    requires ArenaHolds(t.lru.slot, t.gpu, p, {key})
    requires victim in p && Within(p[victim], t.gpu[slot])
    requires HostHolds(Backing(t), t.cpu, p, if t.writeThrough then {} else t.lru.slot.Keys + {victim})
    requires p.Keys - {key} <= t.lru.slot.Keys + Backing(t).Keys + {victim}
    requires Spill(t, victim, slot).Ok?
    ensures var u := Spill(t, victim, slot).state;
            StoredBut(u, p, {key}) && Backing(u) - {victim} == Backing(t) - {victim} &&
                (t.writeThrough ==> Backing(u) == Backing(t))
  {
    hide Lru.Valid, PoolOk, ArenaHolds, HostHolds, AllSized;
    SpillShaped(t, victim, slot);
    var u := Spill(t, victim, slot).state;
    if !t.writeThrough {
      PoolTake(|t.cpu|, t.cpuFree, Backing(t), victim);
      HostSpilled(t.cpuSlots, t.cpu, p, t.lru.slot.Keys, victim, t.cpuFree[|t.cpuFree| - 1], t.gpu[slot]);
      assert Backing(u).Keys == Backing(t).Keys + {victim};
      assert Backing(u) - {victim} == Backing(t) - {victim};
    }
  }

  /** Between taking the slot and moving its old contents out, only the victim and `key` are out of place. */
  lemma AddStored<T>(t: Tier<T>, p: Plain<T>, key: Key, a: Added)
    requires StoredBut(t, p, {key}) && AddedRight(t.lru, key, a)
    ensures ArenaHolds(a.lru.slot, t.gpu, p, {key}) && key in a.lru.slot && a.lru.slot[key] == a.slot < |t.gpu|
    ensures a.evicted.None? ==> StoredBut(t.(lru := a.lru), p, {key})
    ensures a.evicted.Some? ==>
              var victim := a.evicted.value;
              && victim != key && victim !in a.lru.slot && victim in p && Within(p[victim], t.gpu[a.slot])
              && HostHolds(Backing(t), t.cpu, p, if t.writeThrough then {} else a.lru.slot.Keys + {victim})
              && p.Keys - {key} <= a.lru.slot.Keys + Backing(t).Keys + {victim}
  {
    hide PoolOk, AllSized, Lru.Valid, ArenaHolds, HostHolds, Moved;
    AddMoved(t.lru, key, a);
    MovedFacts(t.lru.slot, a.lru.slot, key, a.slot, a.evicted);
    ArenaMoved(t.lru.slot, a.lru.slot, t.gpu, p, key, a.slot, a.evicted);
    KeysMoved(t.lru.slot, a.lru.slot, key, a.slot, a.evicted);
    if !t.writeThrough {
      var stale := a.lru.slot.Keys + (if a.evicted.Some? then {a.evicted.value} else {});
      HostMoreStale(Backing(t), t.cpu, p, t.lru.slot.Keys, stale);
      assert a.evicted.None? ==> stale == a.lru.slot.Keys;
    }
  }

  /** Making room for `key` loses nothing: the victim's rows are on the host before its slot is reused. */
  lemma PlaceStored<T>(t: Tier<T>, p: Plain<T>, key: Key, protected: set<Key>)
    requires StoredBut(t, p, {key}) && Place(t, key, protected).Placed?
    ensures var Placed(u, slot) := Place(t, key, protected);
            && StoredBut(u, p, {key})
            && (key in t.lru.slot ==> slot == t.lru.slot[key])
            && (t.writeThrough ==> Backing(u) == Backing(t))
            && (key in Backing(u) <==> key in Backing(t))
  {
    hide Spill, Add, PoolOk, AllSized, ArenaHolds, HostHolds, Lru.Valid;
    AddValid(t.lru, key, protected);
    var a := Add(t.lru, key, protected).value;
    AddStored(t, p, key, a);
    if a.evicted.Some? {
      var victim := a.evicted.value;
      SpillStored(t.(lru := a.lru), p, key, victim, a.slot);
      var u := Spill(t.(lru := a.lru), victim, a.slot).state;
      assert key in Backing(u) <==> key in Backing(u) - {victim};
    }
  }

  // ------------------------------------------------------------------ each operation

  lemma ArenaWritten<T>(l: Lru, gpu: seq<KV<T>>, p: Plain<T>, key: Key, kv: KV<T>, want: KV<T>)
    requires l.Valid() && |gpu| == l.capacity && key in l.slot && Within(want, kv)
    requires ArenaHolds(l.slot, gpu, p, {key})
    ensures l.slot[key] < |gpu| && ArenaHolds(l.slot, gpu[l.slot[key] := kv], p[key := want], {})
  {
  }

  lemma HostUnchanged<T>(at: map<Key, nat>, cpu: seq<KV<T>>, p: Plain<T>, stale: set<Key>, key: Key, want: KV<T>)
    requires HostHolds(at, cpu, p, stale)
    requires key in at && key !in stale ==> at[key] < |cpu| && Within(want, cpu[at[key]])
    ensures HostHolds(at, cpu, p[key := want], stale)
  {
  }

  lemma WrittenStored<T>(u: Tier<T>, p: Plain<T>, key: Key, kv: KV<T>, want: KV<T>)
    requires StoredBut(u, p, {key}) && key in u.lru.slot && u.lru.slot[key] < |u.gpu|
    requires Sized(kv, u.blockSize) && Within(want, kv)
    requires u.writeThrough && key in u.hostSlots ==>
             u.hostSlots[key] < |u.cpu| && Within(want, u.cpu[u.hostSlots[key]])
    ensures Represents(Written(u, u.lru.slot[key], kv, key.block), p[key := want])
  {
    hide PoolOk, ArenaHolds, HostHolds, Lru.Valid, AllSized;
    ArenaWritten(u.lru, u.gpu, p, key, kv, want);
    HostUnchanged(Backing(u), u.cpu, p, Stale(u), key, want);
    assert p[key := want].Keys - {} <= u.lru.slot.Keys + Backing(u).Keys;
  }

  lemma MirrorStored<T>(t: Tier<T>, p: Plain<T>, key: Key, kv: KV<T>)
    requires Represents(t, p) && t.writeThrough && key in p && key in t.lru.slot
    requires Sized(kv, t.blockSize) && Within(p[key], kv) && Mirror(t, key, kv).Ok?
    ensures Represents(Mirror(t, key, kv).state, p)
  {
    hide Lru.Valid, PoolOk, AllSized, ArenaHolds, HostHolds;
    if key !in t.hostSlots {
      StoreShaped(t, key, kv);
      PoolTake(|t.cpu|, t.cpuFree, Backing(t), key);
      HostMoreStale(t.hostSlots, t.cpu, p, {}, {} + {key});
      HostSpilled(t.hostSlots, t.cpu, p, {}, key, t.cpuFree[|t.cpuFree| - 1], kv);
      assert p.Keys - {} <= t.lru.slot.Keys + Backing(Mirror(t, key, kv).state).Keys;
    }
  }

  lemma LessToKeep<T>(t: Tier<T>, p: Plain<T>, key: Key)
    requires Represents(t, p)
    ensures StoredBut(t, p, {key})
  {
  }

  /**
   Filling is transparent when the block is new to the mirror or its mirror holds the same rows: a mirrored block
   is never mirrored again, so new contents for it would not reach the host.
   */
  lemma FillStored<T>(t: Tier<T>, p: Plain<T>, key: Key, kv: KV<T>)
    requires Represents(t, p) && Sized(kv, t.blockSize) && Fill(t, key, kv).Ok?
    requires t.writeThrough && key in t.hostSlots ==> t.hostSlots[key] < |t.cpu| && Within(kv, t.cpu[t.hostSlots[key]])
    ensures Represents(Fill(t, key, kv).state, p[key := kv])
  {
    hide PoolOk, Lru.Valid, ArenaHolds, HostHolds, Place, Mirror;
    LessToKeep(t, p, key);
    PlaceShaped(t, key, {});
    PlaceStored(t, p, key, {});
    if t.writeThrough { PlaceKeepsMirror(t, key, {}); }
    var u := Place(t, key, {}).state;
    WrittenStored(u, p, key, kv, kv);
    if t.writeThrough {
      MirrorStored(Written(u, u.lru.slot[key], kv, key.block), p[key := kv], key, kv);
    }
  }

  lemma PlaceHostSlots<T>(t: Tier<T>, key: Key, protected: set<Key>)
    requires Shaped(t) && Place(t, key, protected).Placed?
    ensures Place(t, key, protected).state.hostSlots == t.hostSlots
  {
    hide PoolOk, AllSized, Lru.Valid, Add;
  }

  lemma PlaceKeepsMirror<T>(t: Tier<T>, key: Key, protected: set<Key>)
    requires Shaped(t) && t.writeThrough && Place(t, key, protected).Placed?
    ensures Place(t, key, protected).state.cpu == t.cpu && Place(t, key, protected).state.hostSlots == t.hostSlots
  {
    hide PoolOk, Lru.Valid, Add;
  }

  /** Refilling a mirrored block is transparent exactly when the mirror already holds the new rows. */
  lemma RefillIff<T>(t: Tier<T>, p: Plain<T>, key: Key, kv: KV<T>)
    requires Represents(t, p) && Sized(kv, t.blockSize) && Fill(t, key, kv).Ok? && t.writeThrough && key in t.hostSlots
    ensures t.hostSlots[key] < |t.cpu|
    ensures Represents(Fill(t, key, kv).state, p[key := kv]) <==> Within(kv, t.cpu[t.hostSlots[key]])
  {
    hide PoolOk, Lru.Valid, Place;
    LessToKeep(t, p, key);
    MirroredRows(t, p, key);
    PlaceShaped(t, key, {});
    PlaceKeepsMirror(t, key, {});
    var u := Fill(t, key, kv).state;
    assert u.hostSlots == t.hostSlots && u.cpu == t.cpu && u.writeThrough;
    if Within(kv, t.cpu[t.hostSlots[key]]) { FillStored(t, p, key, kv); }
    if Represents(u, p[key := kv]) {
      LessToKeep(u, p[key := kv], key);
      MirroredRows(u, p[key := kv], key);
    }
  }

  lemma MirroredRows<T>(u: Tier<T>, p: Plain<T>, key: Key)
    requires StoredBut(u, p, {key}) && u.writeThrough && key in u.hostSlots
    ensures key in p && u.hostSlots[key] < |u.cpu| && Within(p[key], u.cpu[u.hostSlots[key]])
  {
    hide PoolOk, Lru.Valid;
    assert key in Backing(u);
  }

  /** The live block is copied whole each step; it must not have been mirrored yet. */
  lemma LiveStored<T>(t: Tier<T>, p: Plain<T>, key: Key, kv: KV<T>)
    requires Represents(t, p) && Sized(kv, t.blockSize) && WriteLive(t, key, kv).Ok?
    requires t.writeThrough ==> key !in t.hostSlots
    ensures Represents(WriteLive(t, key, kv).state, p[key := kv])
  {
    hide PoolOk, Lru.Valid, ArenaHolds, HostHolds, Place;
    LessToKeep(t, p, key);
    PlaceShaped(t, key, {});
    PlaceStored(t, p, key, {});
    WrittenStored(Place(t, key, {}).state, p, key, kv, kv);
  }

  /** The rows a block has after one more token. */
  function Grown<T>(p: Plain<T>, key: Key, kRow: T, vRow: T, offset: nat): KV<T> {
    if offset == 0 || key !in p then KV([kRow], [vRow]) else KV(p[key].k + [kRow], p[key].v + [vRow])
  }

  /** The live block is in the arena with exactly the rows before `offset`, or this token starts it. */
  ghost predicate CanAppend<T>(t: Tier<T>, p: Plain<T>, key: Key, offset: nat) {
    && (t.writeThrough ==> key !in t.hostSlots)
    && (offset > 0 ==> key in t.lru.slot && key in p && |p[key].k| == offset == |p[key].v|)
  }

  lemma PrefixGrows<T>(want: seq<T>, have: seq<T>, row: T)
    requires want <= have && |want| < |have|
    ensures want + [row] <= have[|want| := row]
  {
  }

  lemma ResidentRows<T>(t: Tier<T>, p: Plain<T>, key: Key)
    requires Represents(t, p) && key in t.lru.slot
    ensures key in p && t.lru.slot[key] < |t.gpu| && Within(p[key], t.gpu[t.lru.slot[key]])
  {
    hide PoolOk, Lru.Valid;
  }

  lemma RowAdded<T>(p: Plain<T>, key: Key, kRow: T, vRow: T, offset: nat, now: KV<T>)
    requires offset < |now.k| && offset < |now.v|
    requires offset > 0 ==> key in p && |p[key].k| == offset == |p[key].v| && Within(p[key], now)
    ensures Within(Grown(p, key, kRow, vRow, offset), WithRow(now, offset, kRow, vRow))
  {
    if offset > 0 {
      PrefixGrows(p[key].k, now.k, kRow);
      PrefixGrows(p[key].v, now.v, vRow);
    }
  }

  /** Appending a token extends the stored rows by that token and keeps the earlier ones. */
  lemma AppendStored<T>(t: Tier<T>, p: Plain<T>, key: Key, offset: nat, kRow: T, vRow: T)
    requires Represents(t, p) && offset < t.blockSize && AppendAt(t, key, offset, kRow, vRow).Ok?
    requires CanAppend(t, p, key, offset)
    ensures Represents(AppendAt(t, key, offset, kRow, vRow).state, p[key := Grown(p, key, kRow, vRow, offset)])
  {
    hide PoolOk, Lru.Valid, HostHolds, ArenaHolds, Place, Mirror, WithRow, Grown;
    LessToKeep(t, p, key);
    PlaceShaped(t, key, {});
    PlaceStored(t, p, key, {});
    var Placed(u, slot) := Place(t, key, {});
    assert Sized(u.gpu[slot], t.blockSize);
    if offset > 0 { ResidentRows(t, p, key); }
    RowAdded(p, key, kRow, vRow, offset, u.gpu[slot]);
    var kv, want := WithRow(u.gpu[slot], offset, kRow, vRow), Grown(p, key, kRow, vRow, offset);
    WrittenStored(u, p, key, kv, want);
    if offset == t.blockSize - 1 && t.writeThrough {
      MirrorStored(Written(u, slot, kv, key.block), p[key := want], key, kv);
    }
  }

  /** Reloading changes where a block lives, never what it holds. */
  lemma EnsureOneStored<T>(t: Tier<T>, p: Plain<T>, key: Key)
    requires Represents(t, p) && EnsureOne(t, key).Ok?
    ensures Represents(EnsureOne(t, key).state, p) && SameMode(EnsureOne(t, key).state, t)
  {
    if key in t.lru.slot {
      hide PoolOk;
      TouchValid(t.lru, key);
    } else {
      ReloadStored(t, p, key);
    }
  }

  lemma ReloadStored<T>(t: Tier<T>, p: Plain<T>, key: Key)
    requires Represents(t, p) && key !in t.lru.slot && EnsureOne(t, key).Ok?
    ensures Represents(EnsureOne(t, key).state, p) && SameMode(EnsureOne(t, key).state, t)
  {
    hide Lru.Valid, ArenaHolds, Place, PoolOk;
    var c, t0 := Backing(t)[key], t.(cpuSlots := t.cpuSlots - {key});
    var protected := ProtectedKeys(t, key.seqId);
    TakenStored(t, p, key);
    PlaceShaped(t0, key, protected);
    PlaceStored(t0, p, key, protected);
    var Placed(u, slot) := Place(t0, key, protected);
    assert u.cpu[c] == t.cpu[c] && (!t.writeThrough ==> Reserved(u, c)) by {
      if t.writeThrough {
        PlaceKeepsMirror(t, key, protected);
      } else {
        PlaceReserved(t0, key, protected, c);
      }
    }
    assert p[key := p[key]] == p;
    WrittenStored(u, p, key, u.cpu[c], p[key]);
    if !t.writeThrough {
      GiveBack(Written(u, slot, u.cpu[c], key.block), p, c);
    }
  }

  lemma TakenStored<T>(t: Tier<T>, p: Plain<T>, key: Key)
    requires Represents(t, p) && key !in t.lru.slot && key in Backing(t)
    ensures StoredBut(t.(cpuSlots := t.cpuSlots - {key}), p, {key})
    ensures Backing(t)[key] < |t.cpu| && key in p && Within(p[key], t.cpu[Backing(t)[key]])
    ensures t.writeThrough ==> t.(cpuSlots := t.cpuSlots - {key}) == t
    ensures !t.writeThrough ==> Reserved(t.(cpuSlots := t.cpuSlots - {key}), Backing(t)[key])
    ensures !t.writeThrough ==> key !in Backing(t.(cpuSlots := t.cpuSlots - {key}))
  {
    hide Lru.Valid;
    TakenShaped(t, key);
    PoolForget(|t.cpu|, t.cpuFree, Backing(t), key);
    if t.writeThrough {
      assert t.cpuSlots - {key} == t.cpuSlots;
    } else {
      var t0 := t.(cpuSlots := t.cpuSlots - {key});
      assert Backing(t0) == Backing(t) - {key};
      assert Shaped(t0);
      assert ArenaHolds(t0.lru.slot, t0.gpu, p, {key});
      assert HostHolds(Backing(t0), t0.cpu, p, Stale(t0));
      forall x | x in p.Keys - {key} ensures x in t0.lru.slot.Keys + Backing(t0).Keys {
        assert x in t.lru.slot.Keys + Backing(t).Keys;
      }
    }
  }

  lemma GiveBack<T>(t: Tier<T>, p: Plain<T>, c: nat)
    requires Represents(t, p) && Reserved(t, c)
    ensures Represents(t.(cpuFree := t.cpuFree + [c]), p)
  {
    hide Lru.Valid;
    PoolGive(|t.cpu|, t.cpuFree, Backing(t), c);
  }

  lemma {:induction false} EnsureAllStored<T>(t: Tier<T>, p: Plain<T>, keys: seq<Key>)
    requires Represents(t, p) && EnsureAll(t, keys).Ok?
    ensures Represents(EnsureAll(t, keys).state, p) && SameMode(EnsureAll(t, keys).state, t)
    decreases |keys|
  {
    hide EnsureOne, ArenaHolds, HostHolds, PoolOk, Lru.Valid;
    if keys != [] {
      EnsureOneStored(t, p, keys[0]);
      EnsureAllStored(EnsureOne(t, keys[0]).state, p, keys[1..]);
    }
  }

  lemma EnsureResidentStored<T>(t: Tier<T>, p: Plain<T>, seqId: nat, ids: seq<nat>, keep: seq<nat>)
    requires Represents(t, p) && EnsureResident(t, seqId, ids, keep).Ok?
    ensures Represents(EnsureResident(t, seqId, ids, keep).state, p)
  {
    hide EnsureAll, PoolOk, Lru.Valid, TouchAll;
    TouchedShaped(t, KeysOf(seqId, ids), KeysOf(seqId, keep));
    EnsureAllStored(Touched(t, KeysOf(seqId, ids), KeysOf(seqId, keep)), p, KeysOf(seqId, ids));
  }

  lemma {:induction false} PrefetchStored<T>(t: Tier<T>, p: Plain<T>, keys: seq<Key>)
    requires Represents(t, p) && Prefetch(t, keys).Ok?
    ensures Represents(Prefetch(t, keys).state, p)
    decreases |keys|
  {
    hide EnsureOne, PoolOk, Lru.Valid, ArenaHolds, HostHolds;
    if keys != [] {
      EnsureOneStored(t, p, keys[0]);
      var u := EnsureOne(t, keys[0]).state;
      DemotedShaped(u, keys[0]);
      PrefetchStored(Demoted(u, keys[0]), p, keys[1..]);
    }
  }

  // ------------------------------------------------------------------ prompt hand-over

  lemma FreshNowhere<T>(t: Tier<T>, p: Plain<T>, key: Key)
    requires Represents(t, p) && key !in p
    ensures key !in t.lru.slot && key !in Backing(t)
  {
    hide PoolOk, Lru.Valid;
  }

  lemma HostAdded<T>(at: map<Key, nat>, cpu: seq<KV<T>>, p: Plain<T>, stale: set<Key>, key: Key, c: nat, kv: KV<T>)
    requires HostHolds(at, cpu, p, stale) && c < |cpu| && c !in at.Values
    ensures HostHolds(at[key := c], cpu[c := kv], p[key := kv], stale)
  {
  }

  lemma ArenaUnchanged<T>(slot: map<Key, nat>, gpu: seq<KV<T>>, p: Plain<T>, key: Key, kv: KV<T>)
    requires ArenaHolds(slot, gpu, p, {}) && key !in slot
    ensures ArenaHolds(slot, gpu, p[key := kv], {})
  {
  }

  /** A block new to the cache may go straight to the host. */
  lemma StoreStored<T>(t: Tier<T>, p: Plain<T>, key: Key, kv: KV<T>)
    requires Represents(t, p) && key !in p && t.cpuFree != [] && Sized(kv, t.blockSize)
    ensures Represents(StoreOnHost(t, key, kv), p[key := kv])
  {
    hide Lru.Valid, PoolOk, ArenaHolds, HostHolds;
    FreshNowhere(t, p, key);
    StoreShaped(t, key, kv);
    PoolTake(|t.cpu|, t.cpuFree, Backing(t), key);
    var c := t.cpuFree[|t.cpuFree| - 1];
    HostAdded(Backing(t), t.cpu, p, Stale(t), key, c, kv);
    ArenaUnchanged(t.lru.slot, t.gpu, p, key, kv);
    var u := StoreOnHost(t, key, kv);
    assert Backing(u) == Backing(t)[key := c];
    forall x | x in p[key := kv].Keys - {} ensures x in u.lru.slot.Keys + Backing(u).Keys {
      assert x == key || x in t.lru.slot.Keys + Backing(t).Keys;
    }
  }

  lemma TrimBlockStored<T>(t: Tier<T>, p: Plain<T>, key: Key, kv: KV<T>, kept: bool)
    requires Represents(t, p) && key !in p && Sized(kv, t.blockSize) && TrimBlock(t, key, kv, kept).Ok?
    ensures Represents(TrimBlock(t, key, kv, kept).state, p[key := kv])
  {
    hide Add, PoolOk, ArenaHolds, HostHolds, Lru.Valid;
    FreshNowhere(t, p, key);
    if kept {
      LessToKeep(t, p, key);
      AddValid(t.lru, key, {});
      var a := Add(t.lru, key, {}).value;
      AddStored(t, p, key, a);
      WrittenStored(t.(lru := a.lru), p, key, kv, kv);
      if t.writeThrough { MirrorStored(Written(t.(lru := a.lru), a.slot, kv, key.block), p[key := kv], key, kv); }
    } else {
      StoreStored(t, p, key, kv);
    }
  }

  /** The plain map after blocks `b..` of a prompt were added. */
  function WithBlocks<T>(p: Plain<T>, seqId: nat, blocks: seq<KV<T>>, b: nat): Plain<T>
    requires b <= |blocks|
    decreases |blocks| - b
  {
    if b == |blocks| then p else WithBlocks(p[Key(seqId, b) := blocks[b]], seqId, blocks, b + 1)
  }

  lemma {:induction false} TrimFromStored<T>(t: Tier<T>, p: Plain<T>, seqId: nat, blocks: seq<KV<T>>, keepFrom: nat,
                                             b: nat)
    requires Represents(t, p) && AllSized(blocks, t.blockSize) && b <= |blocks|
    requires forall i :: b <= i < |blocks| ==> Key(seqId, i) !in p
    requires TrimFrom(t, seqId, blocks, keepFrom, b).Ok?
    ensures Represents(TrimFrom(t, seqId, blocks, keepFrom, b).state, WithBlocks(p, seqId, blocks, b))
    decreases |blocks| - b
  {
    hide TrimBlock, PoolOk, ArenaHolds, HostHolds, Lru.Valid;
    if b < |blocks| {
      var key := Key(seqId, b);
      TrimBlockStored(t, p, key, blocks[b], b >= keepFrom);
      TrimBlockShaped(t, key, blocks[b], b >= keepFrom);
      TrimFromStored(TrimBlock(t, key, blocks[b], b >= keepFrom).state, p[key := blocks[b]], seqId, blocks, keepFrom,
          b + 1);
    }
  }

  /** After the hand-over every prompt block is readable, whether it was kept or spilled. */
  lemma TrimStored<T>(t: Tier<T>, p: Plain<T>, seqId: nat, blocks: seq<KV<T>>)
    requires Represents(t, p) && AllSized(blocks, t.blockSize) && Trim(t, seqId, blocks).Ok?
    requires seqId !in t.trimmed ==> forall i :: 0 <= i < |blocks| ==> Key(seqId, i) !in p
    ensures Represents(Trim(t, seqId, blocks).state, if seqId in t.trimmed then p else WithBlocks(p, seqId, blocks, 0))
  {
    hide TrimFrom, PoolOk, ArenaHolds, HostHolds, Lru.Valid;
    if seqId !in t.trimmed {
      TrimFromStored(t.(trimmed := t.trimmed + {seqId}), p, seqId, blocks, KeepFrom(|blocks|, t.lru.capacity), 0);
    }
  }

  lemma StageStored<T>(t: Tier<T>, p: Plain<T>, key: Key, rows: KV<T>)
    requires Represents(t, p) && |rows.k| == |rows.v| <= t.blockSize && Stage(t, key, rows).Ok?
    requires t.writeThrough ==> key !in t.hostSlots
    ensures Represents(Stage(t, key, rows).state, p[key := rows])
  {
    hide PoolOk, Lru.Valid, ArenaHolds, HostHolds, Place;
    LessToKeep(t, p, key);
    PlaceShaped(t, key, {});
    PlaceStored(t, p, key, {});
    var Placed(u, slot) := Place(t, key, {});
    assert Sized(u.gpu[slot], t.blockSize);
    WrittenStored(u, p, key, Over(rows, u.gpu[slot]), rows);
  }

  lemma {:induction false} WithBlocksKeys<T>(p: Plain<T>, seqId: nat, blocks: seq<KV<T>>, b: nat, key: Key)
    requires b <= |blocks| && key !in p
    ensures key in WithBlocks(p, seqId, blocks, b) <==> key.seqId == seqId && b <= key.block < |blocks|
    decreases |blocks| - b
  {
    if b < |blocks| && key != Key(seqId, b) {
      WithBlocksKeys(p[Key(seqId, b) := blocks[b]], seqId, blocks, b + 1, key);
    } else if b < |blocks| {
      WithBlocksKeepKeys(p[key := blocks[b]], seqId, blocks, b + 1, key);
    }
  }

  lemma {:induction false} WithBlocksKeepKeys<T>(p: Plain<T>, seqId: nat, blocks: seq<KV<T>>, b: nat, key: Key)
    requires b <= |blocks| && key in p
    ensures key in WithBlocks(p, seqId, blocks, b)
    decreases |blocks| - b
  {
    if b < |blocks| { WithBlocksKeepKeys(p[Key(seqId, b) := blocks[b]], seqId, blocks, b + 1, key); }
  }

  function WithPrompt<T>(p: Plain<T>, seqId: nat, blocks: seq<KV<T>>, tail: KV<T>): Plain<T> {
    var q := WithBlocks(p, seqId, blocks, 0);
    if |tail.k| > 0 then q[Key(seqId, |blocks|) := tail] else q
  }

  lemma IngestStored<T>(t: Tier<T>, p: Plain<T>, seqId: nat, blocks: seq<KV<T>>, tail: KV<T>)
    requires Represents(t, p) && AllSized(blocks, t.blockSize) && |tail.k| == |tail.v| < t.blockSize
    requires seqId !in t.trimmed ==> forall i :: 0 <= i <= |blocks| ==> Key(seqId, i) !in p
    requires Ingest(t, seqId, blocks, tail).Ok?
    ensures Represents(Ingest(t, seqId, blocks, tail).state,
                       if seqId in t.trimmed then p else WithPrompt(p, seqId, blocks, tail))
  {
    hide Trim, Stage, PoolOk, ArenaHolds, HostHolds, Lru.Valid;
    if seqId !in t.trimmed {
      TrimStored(t, p, seqId, blocks);
      TrimShaped(t, seqId, blocks);
      var u, q, live := Trim(t, seqId, blocks).state, WithBlocks(p, seqId, blocks, 0), Key(seqId, |blocks|);
      if |tail.k| > 0 {
        WithBlocksKeys(p, seqId, blocks, 0, live);
        FreshNowhere(u, q, live);
        StageStored(u, q, live, tail);
      }
    }
  }

  // ------------------------------------------------------------------ release

  function Forget<T>(p: Plain<T>, seqId: nat): Plain<T> {
    map x | x in p && x.seqId != seqId :: p[x]
  }

  lemma {:induction false} FreeAllValid(l: Lru, keys: seq<Key>)
    requires l.Valid()
    ensures FreeAll(l, keys).Valid() && FreeAll(l, keys).capacity == l.capacity
    ensures FreeAll(l, keys).slot == l.slot - Elems(keys)
    decreases |keys|
  {
    hide Lru.Valid;
    if keys == [] {
      assert l.slot - Elems(keys) == l.slot;
    } else {
      var m := if keys[0] in l.slot then Free(l, keys[0]) else l;
      if keys[0] in l.slot { FreeValid(l, keys[0]); }
      FreeAllValid(m, keys[1..]);
      DropMore(l.slot, m.slot, keys);
    }
  }

  lemma DropMore(a: map<Key, nat>, b: map<Key, nat>, keys: seq<Key>)
    requires keys != [] && b == a - {keys[0]}
    ensures b - Elems(keys[1..]) == a - Elems(keys)
  {
    assert Elems(keys) == {keys[0]} + Elems(keys[1..]);
  }

  lemma PoolRelease(size: nat, free: seq<nat>, at: map<Key, nat>, keys: seq<Key>)
    requires PoolOk(size, free, at) && NoDup(keys) && forall k :: k in keys ==> k in at
    ensures PoolOk(size, free + SlotsOf(at, keys), at - Elems(keys))
  {
    var back := SlotsOf(at, keys);
    forall i, j | 0 <= i < j < |free + back| ensures (free + back)[i] != (free + back)[j] {
      if i < |free| <= j {
        assert free[i] in free && keys[j - |free|] in keys;
      } else if |free| <= i {
        assert keys[i - |free|] in keys && keys[j - |free|] in keys;
      }
    }
    forall c | c in free + back ensures c < size {
      if c !in free { var i :| 0 <= i < |back| && back[i] == c; assert keys[i] in keys; }
    }
    forall x | x in at - Elems(keys) ensures at[x] !in free + back {
      forall i | 0 <= i < |back| ensures back[i] != at[x] { assert keys[i] in keys; }
    }
  }

  lemma ArenaReleased<T>(slot: map<Key, nat>, gpu: seq<KV<T>>, p: Plain<T>, seqId: nat, gone: set<Key>)
    requires ArenaHolds(slot, gpu, p, {}) && forall x :: x in slot && x.seqId == seqId ==> x in gone
    ensures ArenaHolds(slot - gone, gpu, Forget(p, seqId), {})
  {
  }

  lemma HostReleased<T>(at: map<Key, nat>, cpu: seq<KV<T>>, p: Plain<T>, stale: set<Key>, seqId: nat, gone: set<Key>,
                        stale': set<Key>)
    requires HostHolds(at, cpu, p, stale) && forall x :: x in at && x.seqId == seqId ==> x in gone
    requires forall x :: x in stale && x.seqId != seqId ==> x in stale'
    ensures HostHolds(at - gone, cpu, Forget(p, seqId), stale')
  {
  }

  lemma ReleaseShaped<T>(t: Tier<T>, seqId: nat, hostKeys: seq<Key>)
    requires Shaped(t) && ListsCopies(hostKeys, Backing(t), seqId)
    ensures var u := Release(t, seqId, hostKeys);
            && Shaped(u) && Backing(u) == Backing(t) - Elems(hostKeys)
            && u.lru.slot == t.lru.slot - Elems(SeqKeys(t.lru.order, seqId))
            && u.writeThrough == t.writeThrough && u.cpu == t.cpu && u.gpu == t.gpu && u.lru.capacity == t.lru.capacity
            && u.mixture == t.mixture && u.blockSize == t.blockSize && u.prefetchTouch == t.prefetchTouch
    ensures forall x :: x in SeqKeys(t.lru.order, seqId) <==> x in t.lru.slot && x.seqId == seqId
  {
    hide PoolOk, Lru.Valid, FreeAll, AllSized;
    var u := Release(t, seqId, hostKeys);
    HeldKeys(t.lru);
    FreeAllValid(t.lru, SeqKeys(t.lru.order, seqId));
    PoolRelease(|t.cpu|, t.cpuFree, Backing(t), hostKeys);
    assert Backing(u) == Backing(t) - Elems(hostKeys);
    assert if t.writeThrough then u.cpuSlots == map[] else u.hostSlots == map[];
  }

  /** Releasing a sequence forgets its blocks and disturbs no other sequence. */
  lemma ReleaseStored<T>(t: Tier<T>, p: Plain<T>, seqId: nat, hostKeys: seq<Key>)
    requires Represents(t, p) && ListsCopies(hostKeys, Backing(t), seqId)
    ensures Represents(Release(t, seqId, hostKeys), Forget(p, seqId))
  {
    hide PoolOk, Lru.Valid, ArenaHolds, HostHolds, AllSized, Release;
    var gone, u := SeqKeys(t.lru.order, seqId), Release(t, seqId, hostKeys);
    ReleaseShaped(t, seqId, hostKeys);
    ArenaReleased(t.lru.slot, t.gpu, p, seqId, Elems(gone));
    HostReleased(Backing(t), t.cpu, p, Stale(t), seqId, Elems(hostKeys), Stale(u));
    forall x | x in Forget(p, seqId).Keys - {} ensures x in u.lru.slot.Keys + Backing(u).Keys {
      assert x in t.lru.slot.Keys + Backing(t).Keys;
    }
  }

  lemma HeldKeys(l: Lru)
    requires l.Valid()
    ensures l.slot.Keys == Elems(l.order)
  {
  }

  // ------------------------------------------------------------------ whole runs

  datatype Op<T> =
    | OpFill(key: Key, kv: KV<T>)
    | OpLive(key: Key, kv: KV<T>)
    | OpAppend(seqId: nat, pos: nat, kRow: T, vRow: T)
    | OpEnsure(seqId: nat, ids: seq<nat>, keep: seq<nat>)
    | OpPrefetch(seqId: nat, ids: seq<nat>)
    | OpPrevSelected(seqId: nat, chosen: set<nat>)
    | OpTrim(seqId: nat, blocks: seq<KV<T>>)
    | OpIngest(seqId: nat, blocks: seq<KV<T>>, tail: KV<T>)
    | OpRelease(seqId: nat, hostKeys: seq<Key>)

  /** Arguments of the right shape: what the tensor shapes and the host dictionary guarantee. */
  ghost predicate WellShaped<T>(t: Tier<T>, op: Op<T>) {
    match op
    case OpFill(_, kv) => Sized(kv, t.blockSize)
    case OpLive(_, kv) => Sized(kv, t.blockSize)
    case OpTrim(_, blocks) => AllSized(blocks, t.blockSize)
    case OpIngest(_, blocks, tail) => AllSized(blocks, t.blockSize) && |tail.k| == |tail.v| < t.blockSize
    case OpRelease(seqId, hostKeys) => ListsCopies(hostKeys, Backing(t), seqId)
    case _ => true
  }

  ghost function Step<T>(t: Tier<T>, op: Op<T>): Outcome<T>
    requires Shaped(t) && WellShaped(t, op)
  {
    match op
    case OpFill(key, kv) => Fill(t, key, kv)
    case OpLive(key, kv) => WriteLive(t, key, kv)
    case OpAppend(seqId, pos, kRow, vRow) => AppendToken(t, seqId, pos, kRow, vRow)
    case OpEnsure(seqId, ids, keep) => EnsureResident(t, seqId, ids, keep)
    case OpPrefetch(seqId, ids) => Prefetch(t, KeysOf(seqId, ids))
    case OpPrevSelected(seqId, blocks) => Ok(SetPrevSelected(t, seqId, blocks))
    case OpTrim(seqId, blocks) => Trim(t, seqId, blocks)
    case OpIngest(seqId, blocks, tail) => Ingest(t, seqId, blocks, tail)
    case OpRelease(seqId, hostKeys) => Ok(Release(t, seqId, hostKeys))
  }

  /**
   How the decode loop uses the cache: a full block is immutable once filled, the live block is written
   before it is full, and a prompt is handed over once, before anything else of its sequence.
   */
  ghost predicate Disciplined<T>(t: Tier<T>, p: Plain<T>, op: Op<T>)
    requires t.blockSize > 0
  {
    match op
    case OpFill(key, kv) => t.writeThrough && key in t.hostSlots ==> key in p && p[key] == kv
    case OpLive(key, _) => t.writeThrough ==> key !in t.hostSlots
    case OpAppend(seqId, pos, _, _) => CanAppend(t, p, Key(seqId, pos / t.blockSize), pos % t.blockSize)
    case OpTrim(seqId, blocks) => seqId !in t.trimmed ==> forall i :: 0 <= i < |blocks| ==> Key(seqId, i) !in p
    case OpIngest(seqId, blocks, _) => seqId !in t.trimmed ==> forall i :: 0 <= i <= |blocks| ==> Key(seqId, i) !in p
    case _ => true
  }

  /** The same operation on a plain map, where nothing is ever moved. */
  ghost function PlainStep<T>(t: Tier<T>, p: Plain<T>, op: Op<T>): Plain<T>
    requires t.blockSize > 0
  {
    match op
    case OpFill(key, kv) => p[key := kv]
    case OpLive(key, kv) => p[key := kv]
    case OpAppend(seqId, pos, kRow, vRow) =>
      var key := Key(seqId, pos / t.blockSize); p[key := Grown(p, key, kRow, vRow, pos % t.blockSize)]
    case OpTrim(seqId, blocks) => if seqId in t.trimmed then p else WithBlocks(p, seqId, blocks, 0)
    case OpIngest(seqId, blocks, tail) => if seqId in t.trimmed then p else WithPrompt(p, seqId, blocks, tail)
    case OpRelease(seqId, _) => Forget(p, seqId)
    case _ => p
  }

  /** One operation of the tiered cache refines the same operation on the plain map. */
  lemma StepRefines<T>(t: Tier<T>, p: Plain<T>, op: Op<T>)
    requires Represents(t, p) && WellShaped(t, op) && Disciplined(t, p, op) && Step(t, op).Ok?
    ensures Represents(Step(t, op).state, PlainStep(t, p, op))
  {
    hide PoolOk, ArenaHolds, HostHolds, Lru.Valid, Fill, WriteLive;
    hide AppendAt, EnsureResident, Prefetch, Trim, Ingest, Release, CanAppend;
    match op
    case OpFill(key, kv) =>
      if t.writeThrough && key in t.hostSlots { LessToKeep(t, p, key); MirroredRows(t, p, key); }
      FillStored(t, p, key, kv);
    case OpLive(key, kv) => LiveStored(t, p, key, kv);
    case OpAppend(seqId, pos, kRow, vRow) =>
      AppendStored(t, p, Key(seqId, pos / t.blockSize), pos % t.blockSize, kRow, vRow);
    case OpEnsure(seqId, ids, keep) => EnsureResidentStored(t, p, seqId, ids, keep);
    case OpPrefetch(seqId, ids) => PrefetchStored(t, p, KeysOf(seqId, ids));
    case OpPrevSelected(seqId, blocks) =>
    case OpTrim(seqId, blocks) => TrimStored(t, p, seqId, blocks);
    case OpIngest(seqId, blocks, tail) => IngestStored(t, p, seqId, blocks, tail);
    case OpRelease(seqId, hostKeys) => ReleaseStored(t, p, seqId, hostKeys);
  }

  /**
   A run in which every operation is disciplined and none raises: the states it goes through and the plain maps beside
   them.
   */
  ghost predicate Run<T>(ts: seq<Tier<T>>, ps: seq<Plain<T>>, ops: seq<Op<T>>) {
    && |ts| == |ps| == |ops| + 1
    && forall i :: 0 <= i < |ops| ==> Follows(ts[i], ps[i], ops[i], ts[i + 1], ps[i + 1])
  }

  ghost predicate Follows<T>(t: Tier<T>, p: Plain<T>, op: Op<T>, t': Tier<T>, p': Plain<T>) {
    && Shaped(t) && WellShaped(t, op) && Disciplined(t, p, op)
    && Step(t, op) == Ok(t') && PlainStep(t, p, op) == p'
  }

  /** Transparency over whole runs: after any number of operations the tiers still represent the plain map. */
  lemma {:induction false} RunRefines<T>(ts: seq<Tier<T>>, ps: seq<Plain<T>>, ops: seq<Op<T>>, n: nat)
    requires Run(ts, ps, ops) && n <= |ops| && Represents(ts[0], ps[0])
    ensures Represents(ts[n], ps[n])
  {
    hide StoredBut, Step, PlainStep, Disciplined, WellShaped;
    if n > 0 {
      RunRefines(ts, ps, ops, n - 1);
      assert Follows(ts[n - 1], ps[n - 1], ops[n - 1], ts[n], ps[n]);
      StepRefines(ts[n - 1], ps[n - 1], ops[n - 1]);
    }
  }

  /** A new cache represents the empty map. */
  lemma EmptyRepresents<T>(t: Tier<T>)
    requires Shaped(t) && t.lru.order == [] && Backing(t) == map[]
    ensures Represents(t, map[])
  {
    hide PoolOk;
    HeldKeys(t.lru);
  }

  // ------------------------------------------------------------------ reading back

  lemma {:induction false} EnsureAllIsReload<T>(t: Tier<T>, seqId: nat, keys: seq<Key>)
    requires Shaped(t) && EnsureAll(t, keys).Ok?
    requires forall k :: k in keys ==> k.seqId == seqId
    ensures EnsureAll(t, keys).state.lru == Reload(t.lru, keys, ProtectedKeys(t, seqId)).lru
    decreases |keys|
  {
    hide PoolOk, Lru.Valid;
    if keys != [] {
      assert keys[0] in keys && forall k :: k in keys[1..] ==> k in keys;
      EnsureOneLru(t, keys[0]);
      EnsureOneShaped(t, keys[0]);
      var u := EnsureOne(t, keys[0]).state;
      EnsureAllIsReload(u, seqId, keys[1..]);
      ReloadUnfold(t.lru, keys, ProtectedKeys(t, seqId));
    }
  }

  lemma EnsureOneLru<T>(t: Tier<T>, key: Key)
    requires Shaped(t) && EnsureOne(t, key).Ok?
    ensures var a := Add(t.lru, key, ProtectedKeys(t, key.seqId));
            a.Some? && a.value.lru == EnsureOne(t, key).state.lru && a.value.lru.Valid()
  {
    hide PoolOk, Lru.Valid;
    AddValid(t.lru, key, ProtectedKeys(t, key.seqId));
    if key !in t.lru.slot {
      TakenShaped(t, key);
      var t0 := t.(cpuSlots := t.cpuSlots - {key});
      PlaceLru(t0, key, ProtectedKeys(t, key.seqId));
    }
  }

  lemma PlaceLru<T>(t: Tier<T>, key: Key, protected: set<Key>)
    requires Shaped(t) && Place(t, key, protected).Placed?
    ensures Add(t.lru, key, protected).Some? &&
            Place(t, key, protected).state.lru == Add(t.lru, key, protected).value.lru
  {
    hide PoolOk, Lru.Valid, Spill;
    AddValid(t.lru, key, protected);
    var a := Add(t.lru, key, protected).value;
    if a.evicted.Some? { SpillShaped(t.(lru := a.lru), a.evicted.value, a.slot); }
  }

  /**
   Once a residency request returns, whatever sequences are cached, every selected block and the live block sit in
   the arena with exactly the rows last written, provided the working set fits and `Spared` held.
   */
  lemma ReturnedReadsBack<T>(t: Tier<T>, p: Plain<T>, seqId: nat, ids: seq<nat>, keep: seq<nat>, key: Key)
    requires Represents(t, p) && EnsureResident(t, seqId, ids, keep).Ok? && t.lru.capacity > 0
    requires var need := Need(t.lru, KeysOf(seqId, ids), KeysOf(seqId, keep));
             && |need| <= t.lru.capacity && key in need
             && Spared(t.lru, need, KeysOf(seqId, ids), ProtectedKeys(t, seqId))
    ensures var u := EnsureResident(t, seqId, ids, keep).state;
            key in u.lru.slot && key in p && u.lru.slot[key] < |u.gpu| && Within(p[key], u.gpu[u.lru.slot[key]])
  {
    hide PoolOk, Lru.Valid, ArenaHolds, HostHolds, Spared, EnsureAll, Reload, TouchAll;
    var idKeys, keepKeys := KeysOf(seqId, ids), KeysOf(seqId, keep);
    EnsureResidentStored(t, p, seqId, ids, keep);
    TouchedShaped(t, idKeys, keepKeys);
    EnsureAllIsReload(Touched(t, idKeys, keepKeys), seqId, idKeys);
    NeededNeverEvictedIff(t.lru, idKeys, keepKeys, ProtectedKeys(t, seqId));
    ResidentRows(EnsureResident(t, seqId, ids, keep).state, p, key);
  }
}
