/**
 The tier manager as the object it is: a slot table and a layer manager whose methods update their fields,
 each proved to do exactly what the functions of `SlotMap` and `TierModel` say.
 */
module TierManager {
  import opened Lists
  import opened SlotMap
  import opened WorkingSet
  import opened TierModel
  import opened TierPlacement

  datatype Status = Done | Raised(error: Failure)

  ghost predicate Agrees<T>(r: Status, now: Tier<T>, spec: Outcome<T>) {
    match spec
    case Ok(t) => r == Done && now == t
    case Err(e, t) => r == Raised(e) && now == t
  }

  /** The end of a reload, once room has been made: the rows are copied in and a spilled block's host slot is freed. */
  function Reloaded<T>(u: Tier<T>, slot: nat, c: nat, block: nat): Tier<T>
    requires slot < |u.gpu| && c < |u.cpu|
  {
    u.(gpu := u.gpu[slot := u.cpu[c]], residency := u.residency[block := OnGpu],
       cpuFree := if u.writeThrough then u.cpuFree else u.cpuFree + [c])
  }

  lemma ReloadEnds<T>(t: Tier<T>, t0: Tier<T>, key: Key, protected: set<Key>, c: nat)
    requires Shaped(t) && key !in t.lru.slot && key in Backing(t) && c == Backing(t)[key] && c < |t.cpu|
    requires t0 == t.(cpuSlots := t.cpuSlots - {key}) && protected == ProtectedKeys(t, key.seqId) && Shaped(t0)
    ensures match Place(t0, key, protected)
            case NotPlaced(e, u) => EnsureOne(t, key) == Err(e, u)
            case Placed(u, slot) =>
              && slot < |u.gpu| && |u.cpu| == |t.cpu|
              && EnsureOne(t, key) == if MayLoad(u.residency, key.block) then Ok(Reloaded(u, slot, c, key.block))
                                      else Err(BadTransition, u)
  {
    hide PoolOk, Lru.Valid, Place, AllSized;
    PlaceShaped(t0, key, protected);
  }

  class SlotTable {
    const capacity: nat
    var order: seq<Key>
    var slot: map<Key, nat>
    var free: seq<nat>

    ghost function View(): Lru
      reads this
    {
      Lru(capacity, order, slot, free)
    }

    constructor (capacity: nat)
      ensures View().Valid() && order == [] && this.capacity == capacity
    {
      this.capacity := capacity;
      order := [];
      slot := map[];
      free := seq(capacity, i requires 0 <= i < capacity => capacity - 1 - i);
    }

    /** Looks a held key up and marks it most recently used. */
    method Get(k: Key) returns (s: nat)
      requires View().Valid() && k in slot
      modifies this
      ensures View() == Touch(old(View()), k) && View().Valid() && s == slot[k]
    {
      TouchValid(View(), k);
      s := slot[k];
      order := Without(order, k) + [k];
    }

    /** `added.None?` is the exception raised when nothing can be evicted. */
    method AddKey(k: Key, protected: set<Key>) returns (added: Option<(nat, Option<Key>)>)
      requires View().Valid()
      modifies this
      ensures View().Valid()
      ensures match Add(old(View()), k, protected)
              case None => added.None? && View() == old(View())
              case Some(a) => added == Some((a.slot, a.evicted)) && View() == a.lru
    {
      AddValid(View(), k, protected);
      if k in slot {
        var s := Get(k);
        return Some((s, None));
      }
      if free != [] {
        var s := free[|free| - 1];
        free := free[..|free| - 1];
        slot := slot[k := s];
        order := order + [k];
        return Some((s, None));
      }
      if order == [] {
        return None;
      }
      var victim := order[0];
      if protected != {} {
        victim := FirstUnprotected(protected);
      }
      assert victim == Victim(order, protected) && victim in Elems(order);
      var s := slot[victim];
      slot := (slot - {victim})[k := s];
      order := Without(order, victim) + [k];
      return Some((s, Some(victim)));
    }

    /** Scans from the least recently used end for a key outside `protected`; falls back to the end itself. */
    method FirstUnprotected(protected: set<Key>) returns (victim: Key)
      requires order != []
      ensures victim == Victim(order, protected)
    {
      for i := 0 to |order|
        invariant FirstOutside(order, protected) == FirstOutside(order[i..], protected)
      {
        if order[i] !in protected {
          return order[i];
        }
      }
      victim := order[0];
    }

    /** Moves a held key to the front of the eviction order. */
    method DemoteKey(k: Key)
      requires View().Valid() && k in slot
      modifies this
      ensures View() == Demote(old(View()), k) && View().Valid()
    {
      TouchValid(View(), k);
      order := [k] + Without(order, k);
    }

    method FreeKey(k: Key) returns (s: nat)
      requires View().Valid() && k in slot
      modifies this
      ensures View() == Free(old(View()), k) && View().Valid() && s == old(slot[k])
    {
      FreeValid(View(), k);
      s := slot[k];
      order := Without(order, k);
      free := free + [s];
      slot := slot - {k};
    }
  }

  class Layer<T> {
    const blockSize: nat
    const writeThrough: bool
    const mixture: bool
    const prefetchTouch: bool
    const slots: SlotTable
    var gpu: seq<KV<T>>
    var cpu: seq<KV<T>>
    var cpuFree: seq<nat>
    var cpuSlots: map<Key, nat>
    var hostSlots: map<Key, nat>
    var residency: map<nat, Residency>
    var trimmed: set<nat>
    var prevSelected: map<nat, set<nat>>

    ghost function View(): Tier<T>
      reads this, slots
    {
      Tier(blockSize, writeThrough, mixture, slots.View(), gpu, cpu, cpuFree, cpuSlots, hostSlots, residency,
           trimmed, prevSelected, prefetchTouch)
    }

    constructor (blockSize: nat, writeThrough: bool, mixture: bool, prefetchTouch: bool,
                 gpu: seq<KV<T>>, cpu: seq<KV<T>>)
      requires blockSize > 0 && AllSized(gpu, blockSize) && AllSized(cpu, blockSize)
      ensures Shaped(View()) && New(View()) && fresh(slots) && this.gpu == gpu && this.cpu == cpu
      ensures this.blockSize == blockSize && this.writeThrough == writeThrough
      ensures this.mixture == mixture && this.prefetchTouch == prefetchTouch
    {
      this.blockSize, this.writeThrough := blockSize, writeThrough;
      this.mixture, this.prefetchTouch := mixture, prefetchTouch;
      this.gpu, this.cpu := gpu, cpu;
      slots := new SlotTable(|gpu|);
      cpuFree := seq(|cpu|, i requires 0 <= i < |cpu| => |cpu| - 1 - i);
      cpuSlots, hostSlots, residency, trimmed, prevSelected := map[], map[], map[], {}, map[];
    }

    /** Eviction seam: drops a mirrored block or copies an unmirrored one out, before its slot is reused. */
    method SpillHook(victim: Key, s: nat) returns (r: Status)
      requires Shaped(View()) && s < |gpu|
      modifies this
      ensures Agrees(r, View(), Spill(old(View()), victim, s))
    {
      hide PoolOk, Lru.Valid;
      if writeThrough {
        if victim !in hostSlots { return Raised(NoBackup); }
        if !MayEvict(residency, victim.block) { return Raised(BadTransition); }
        residency := residency[victim.block := OnCpu];
        return Done;
      }
      if cpuFree == [] { return Raised(PoolFull); }
      PoolTake(|cpu|, cpuFree, Backing(View()), victim);
      var c := cpuFree[|cpuFree| - 1];
      cpuFree := cpuFree[..|cpuFree| - 1];
      if !MayEvict(residency, victim.block) { return Raised(BadTransition); }
      cpu := cpu[c := gpu[s]];
      residency := residency[victim.block := OnCpu];
      cpuSlots := cpuSlots[victim := c];
      return Done;
    }

    method MirrorToHost(key: Key, kv: KV<T>) returns (r: Status)
      requires Shaped(View()) && writeThrough
      modifies this
      ensures Agrees(r, View(), Mirror(old(View()), key, kv))
    {
      hide PoolOk, Lru.Valid;
      if key in hostSlots { return Done; }
      if cpuFree == [] { return Raised(PoolFull); }
      PoolTake(|cpu|, cpuFree, Backing(View()), key);
      var c := cpuFree[|cpuFree| - 1];
      cpuFree := cpuFree[..|cpuFree| - 1];
      hostSlots := hostSlots[key := c];
      cpu := cpu[c := kv];
      return Done;
    }

    /** Slot table addition followed by the eviction seam, as every writer does it. */
    method MakeRoom(key: Key, protected: set<Key>) returns (r: Status, s: nat)
      requires Shaped(View())
      modifies this, slots
      ensures match Place(old(View()), key, protected)
              case Placed(t, slot) => r == Done && s == slot && View() == t && Shaped(t) && s < |gpu|
              case NotPlaced(e, t) => r == Raised(e) && View() == t
    {
      hide PoolOk, Lru.Valid, Spill, Add;
      s := 0;
      PlaceShaped(View(), key, protected);
      AddValid(View().lru, key, protected);
      var added := slots.AddKey(key, protected);
      if added.None? { return Raised(NoArena), 0; }
      s := added.value.0;
      r := Done;
      if added.value.1.Some? {
        r := SpillHook(added.value.1.value, s);
      }
    }

    method WriteLiveBlock(key: Key, kv: KV<T>) returns (r: Status)
      requires Shaped(View()) && Sized(kv, blockSize)
      modifies this, slots
      ensures Agrees(r, View(), WriteLive(old(View()), key, kv))
    {
      hide PoolOk, Lru.Valid, Place;
      var s;
      r, s := MakeRoom(key, {});
      if r.Raised? { return; }
      gpu := gpu[s := kv];
      residency := residency[key.block := OnGpu];
    }

    method OnBlockFilled(key: Key, kv: KV<T>) returns (r: Status)
      requires Shaped(View()) && Sized(kv, blockSize)
      modifies this, slots
      ensures Agrees(r, View(), Fill(old(View()), key, kv))
    {
      hide PoolOk, Lru.Valid, Place, Mirror;
      var s;
      r, s := MakeRoom(key, {});
      if r.Raised? { return; }
      ghost var u := View();
      gpu := gpu[s := kv];
      residency := residency[key.block := OnGpu];
      assert View() == Written(u, s, kv, key.block);
      if writeThrough {
        r := MirrorToHost(key, kv);
      }
    }

    method AppendDecodeToken(seqId: nat, pos: nat, kRow: T, vRow: T) returns (r: Status)
      requires Shaped(View())
      modifies this, slots
      ensures Agrees(r, View(), AppendToken(old(View()), seqId, pos, kRow, vRow))
    {
      hide PoolOk, Lru.Valid, Place, Mirror;
      var key, offset := Key(seqId, pos / blockSize), pos % blockSize;
      var s;
      r, s := MakeRoom(key, {});
      if r.Raised? { return; }
      ghost var u := View();
      assert Sized(gpu[s], blockSize);
      var kv := KV(gpu[s].k[offset := kRow], gpu[s].v[offset := vRow]);
      gpu := gpu[s := kv];
      residency := residency[key.block := OnGpu];
      assert View() == Written(u, s, kv, key.block);
      if offset == blockSize - 1 && writeThrough {
        r := MirrorToHost(key, kv);
      }
    }

    method EnsureOneSync(key: Key) returns (r: Status)
      requires Shaped(View())
      modifies this, slots
      ensures Agrees(r, View(), EnsureOne(old(View()), key))
    {
      hide PoolOk, Lru.Valid, Place;
      if key in slots.slot {
        var _ := slots.Get(key);
        return Done;
      }
      if key !in (if writeThrough then hostSlots else cpuSlots) { return Raised(NotFound); }
      r := ReloadFromHost(key);
    }

    method TakeRecord(key: Key) returns (c: nat)
      requires Shaped(View()) && key in Backing(View())
      modifies this`cpuSlots
      ensures c == old(Backing(View())[key]) && View() == old(View()).(cpuSlots := old(cpuSlots) - {key})
    {
      hide PoolOk, Lru.Valid, AllSized;
      if writeThrough {
        c := hostSlots[key];
        assert cpuSlots == cpuSlots - {key};
      } else {
        c := cpuSlots[key];
        cpuSlots := cpuSlots - {key};
      }
    }

    /** The miss path: a spilled block's record is taken out, a durable mirror is only looked at. */
    method ReloadFromHost(key: Key) returns (r: Status)
      requires Shaped(View()) && key !in slots.slot && key in Backing(View())
      modifies this, slots
      ensures Agrees(r, View(), EnsureOne(old(View()), key))
    {
      hide PoolOk, Lru.Valid, Place, AllSized, EnsureOne;
      ghost var t := View();
      TakenShaped(t, key);
      PoolForget(|cpu|, cpuFree, Backing(t), key);
      var protected := if mixture && key.seqId in prevSelected
        then set b | b in prevSelected[key.seqId] :: Key(key.seqId, b) else {};
      assert protected == ProtectedKeys(t, key.seqId);
      hide ProtectedKeys;
      var c := TakeRecord(key);
      ghost var t0 := View();
      PlaceShaped(t0, key, protected);
      var s;
      r, s := MakeRoom(key, protected);
      ReloadEnds(t, t0, key, protected, c);
      if r.Raised? { return; }
      if !MayLoad(residency, key.block) { return Raised(BadTransition); }
      gpu := gpu[s := cpu[c]];
      if !writeThrough { cpuFree := cpuFree + [c]; }
      residency := residency[key.block := OnGpu];
    }

    /** Both passes of a decode step. */
    method EnsureResident(seqId: nat, ids: seq<nat>, keep: seq<nat>) returns (r: Status)
      requires Shaped(View())
      modifies this, slots
      ensures Agrees(r, View(), TierModel.EnsureResident(old(View()), seqId, ids, keep))
    {
      hide PoolOk, Lru.Valid, EnsureOne, EnsureAll;
      ghost var t := View();
      TouchedShaped(t, KeysOf(seqId, ids), KeysOf(seqId, keep));
      TouchAllValid(slots.View(), KeysOf(seqId, keep));
      TouchResident(KeysOf(seqId, keep));
      TouchResident(KeysOf(seqId, ids));
      assert View() == Touched(t, KeysOf(seqId, ids), KeysOf(seqId, keep));
      r := EnsureEach(KeysOf(seqId, ids));
    }

    /** Pass 1: recency only. */
    method TouchResident(keys: seq<Key>)
      requires slots.View().Valid()
      modifies slots
      ensures slots.View() == TouchAll(old(slots.View()), keys) && slots.View().Valid()
    {
      hide Lru.Valid;
      for i := 0 to |keys|
        invariant slots.View().Valid()
        invariant TouchAll(slots.View(), keys[i..]) == TouchAll(old(slots.View()), keys)
      {
        assert keys[i..][0] == keys[i] && keys[i..][1..] == keys[i + 1..];
        if keys[i] in slots.slot {
          var _ := slots.Get(keys[i]);
        }
      }
      assert keys[|keys|..] == [];
    }

    /** Pass 2: reloads the misses in order. */
    method EnsureEach(keys: seq<Key>) returns (r: Status)
      requires Shaped(View())
      modifies this, slots
      ensures Agrees(r, View(), EnsureAll(old(View()), keys))
    {
      hide PoolOk, Lru.Valid, EnsureOne;
      r := Done;
      for i := 0 to |keys|
        invariant Shaped(View()) && r == Done
        invariant EnsureAll(View(), keys[i..]) == EnsureAll(old(View()), keys)
      {
        assert keys[i..][0] == keys[i] && keys[i..][1..] == keys[i + 1..];
        if EnsureOne(View(), keys[i]).Ok? { EnsureOneShaped(View(), keys[i]); }
        r := EnsureOneSync(keys[i]);
        if r.Raised? { return; }
      }
      assert keys[|keys|..] == [];
    }

    /** Speculative reload: a block nobody has asked for yet is left first in line for eviction, unless trusted. */
    method PrefetchTopIds(seqId: nat, ids: seq<nat>) returns (r: Status)
      requires Shaped(View())
      modifies this, slots
      ensures Agrees(r, View(), Prefetch(old(View()), KeysOf(seqId, ids)))
    {
      hide PoolOk, Lru.Valid, EnsureOne;
      var keys := KeysOf(seqId, ids);
      r := Done;
      for i := 0 to |keys|
        invariant Shaped(View()) && r == Done
        invariant Prefetch(View(), keys[i..]) == Prefetch(old(View()), keys)
      {
        assert keys[i..][0] == keys[i] && keys[i..][1..] == keys[i + 1..];
        if EnsureOne(View(), keys[i]).Ok? { EnsureOneShaped(View(), keys[i]); }
        r := EnsureOneSync(keys[i]);
        if r.Raised? { return; }
        DemotedShaped(View(), keys[i]);
        if !prefetchTouch && keys[i] in slots.slot {
          slots.DemoteKey(keys[i]);
        }
      }
      assert keys[|keys|..] == [];
    }

    /**
     Remembers a layer's selection: from now on reloads for this sequence spare exactly these blocks under the mixture
     ordering and none otherwise, and what other sequences protect stays as it was.
     */
    method RememberSelected(seqId: nat, blocks: set<nat>)
      modifies this
      ensures View() == SetPrevSelected(old(View()), seqId, blocks)
      ensures forall x :: x in ProtectedKeys(View(), seqId) <==> mixture && x.seqId == seqId && x.block in blocks
      ensures forall r :: r != seqId ==> ProtectedKeys(View(), r) == ProtectedKeys(old(View()), r)
    {
      ghost var t := View();
      forall x ensures var u := SetPrevSelected(t, seqId, blocks);
                       x in ProtectedKeys(u, seqId) <==> mixture && x.seqId == seqId && x.block in blocks {
        SelectionProtects(t, seqId, blocks, x);
      }
      SelectionProtects(t, seqId, blocks, Key(seqId, 0));
      if mixture {
        prevSelected := prevSelected[seqId := blocks];
      }
    }

    /** The hand-over followed by the partial last block of the prompt, staged where decoding will continue it. */
    method PrefillIngest(seqId: nat, blocks: seq<KV<T>>, tail: KV<T>) returns (r: Status)
      requires Shaped(View()) && AllSized(blocks, blockSize) && |tail.k| == |tail.v| < blockSize
      modifies this, slots
      ensures Agrees(r, View(), Ingest(old(View()), seqId, blocks, tail))
    {
      hide PoolOk, Lru.Valid, Trim, Stage, AllSized;
      if seqId in trimmed {
        return Done;
      }
      ghost var t := View();
      r := TrimToWorkingSet(seqId, blocks);
      if r.Raised? { return; }
      TrimShaped(t, seqId, blocks);
      if |tail.k| > 0 {
        r := StageRows(Key(seqId, |blocks|), tail);
      }
    }

    method StageRows(key: Key, rows: KV<T>) returns (r: Status)
      requires Shaped(View()) && |rows.k| == |rows.v| <= blockSize
      modifies this, slots
      ensures Agrees(r, View(), Stage(old(View()), key, rows))
    {
      hide PoolOk, Lru.Valid, Place;
      var s;
      r, s := MakeRoom(key, {});
      if r.Raised? { return; }
      gpu := gpu[s := Over(rows, gpu[s])];
      residency := residency[key.block := OnGpu];
    }

    /** One-shot prompt hand-over: keeps the last blocks, one slot short of the arena, and sends the rest out. */
    method TrimToWorkingSet(seqId: nat, blocks: seq<KV<T>>) returns (r: Status)
      requires Shaped(View()) && AllSized(blocks, blockSize)
      modifies this, slots
      ensures Agrees(r, View(), Trim(old(View()), seqId, blocks))
    {
      hide PoolOk, Lru.Valid, TrimBlock;
      r := Done;
      if seqId in trimmed { return; }
      trimmed := trimmed + {seqId};
      ghost var t := View();
      var keepN :=
        if slots.capacity == 0 then 0 else if |blocks| < slots.capacity - 1 then |blocks| else slots.capacity - 1;
      var keepFrom := if keepN <= |blocks| then |blocks| - keepN else 0;
      assert keepFrom == KeepFrom(|blocks|, slots.capacity);
      for b := 0 to |blocks|
        invariant Shaped(View()) && r == Done
        invariant TrimFrom(View(), seqId, blocks, keepFrom, b) == TrimFrom(t, seqId, blocks, keepFrom, 0)
      {
        var key := Key(seqId, b);
        if TrimBlock(View(), key, blocks[b], b >= keepFrom).Ok? {
          TrimBlockShaped(View(), key, blocks[b], b >= keepFrom);
        }
        r := TrimOne(key, blocks[b], b >= keepFrom);
        if r.Raised? { return; }
      }
    }

    method TrimOne(key: Key, kv: KV<T>, kept: bool) returns (r: Status)
      requires Shaped(View()) && Sized(kv, blockSize)
      modifies this, slots
      ensures Agrees(r, View(), TrimBlock(old(View()), key, kv, kept))
    {
      hide PoolOk, Lru.Valid, Mirror, Add;
      if kept {
        AddValid(View().lru, key, {});
        ghost var t := View();
        var added := slots.AddKey(key, {});
        if added.None? { return Raised(NoArena); }
        if added.value.1.Some? { return Raised(ArenaOverflow); }
        var s := added.value.0;
        gpu := gpu[s := kv];
        residency := residency[key.block := OnGpu];
        assert View() == Written(t.(lru := slots.View()), s, kv, key.block);
        r := Done;
        if writeThrough { r := MirrorToHost(key, kv); }
      } else if writeThrough {
        r := MirrorToHost(key, kv);
        if r.Raised? { return; }
        if !MayEvict(residency, key.block) { return Raised(BadTransition); }
        residency := residency[key.block := OnCpu];
      } else {
        if cpuFree == [] { return Raised(PoolFull); }
        PoolTake(|cpu|, cpuFree, Backing(View()), key);
        var c := cpuFree[|cpuFree| - 1];
        cpuFree := cpuFree[..|cpuFree| - 1];
        cpu := cpu[c := kv];
        cpuSlots := cpuSlots[key := c];
        if !MayEvict(residency, key.block) { return Raised(BadTransition); }
        residency := residency[key.block := OnCpu];
        r := Done;
      }
    }

    /** Returns every slot of a finished sequence; `hostKeys` is the order its host records are visited in. */
    method FreeRequest(seqId: nat, hostKeys: seq<Key>)
      requires Shaped(View()) && ListsCopies(hostKeys, Backing(View()), seqId)
      modifies this, slots
      ensures View() == Release(old(View()), seqId, hostKeys)
    {
      hide PoolOk, Lru.Valid, FreeAll, SeqKeys;
      var gone := SeqKeys(slots.order, seqId);
      FreeSlots(gone);
      ReturnHostSlots(hostKeys);
      cpuSlots, hostSlots := cpuSlots - Elems(hostKeys), hostSlots - Elems(hostKeys);
      trimmed := trimmed - {seqId};
      prevSelected := prevSelected - {seqId};
      residency := MarkOnGpu(residency, Elems(gone) + Elems(hostKeys));
    }

    method ReturnHostSlots(hostKeys: seq<Key>)
      requires forall k :: k in hostKeys ==> k in Backing(View())
      modifies this`cpuFree
      ensures cpuFree == old(cpuFree) + SlotsOf(old(Backing(View())), hostKeys)
    {
      var at := if writeThrough then hostSlots else cpuSlots;
      for i := 0 to |hostKeys|
        invariant cpuFree == old(cpuFree) + SlotsOf(at, hostKeys)[..i]
      {
        assert hostKeys[i] in hostKeys;
        cpuFree := cpuFree + [at[hostKeys[i]]];
      }
    }

    method FreeSlots(keys: seq<Key>)
      requires slots.View().Valid()
      modifies slots
      ensures slots.View() == FreeAll(old(slots.View()), keys) && slots.View().Valid()
    {
      hide Lru.Valid;
      for i := 0 to |keys|
        invariant slots.View().Valid()
        invariant FreeAll(slots.View(), keys[i..]) == FreeAll(old(slots.View()), keys)
      {
        assert keys[i..][0] == keys[i] && keys[i..][1..] == keys[i + 1..];
        if keys[i] in slots.slot {
          var _ := slots.FreeKey(keys[i]);
        }
      }
      assert keys[|keys|..] == [];
    }
  }
}
