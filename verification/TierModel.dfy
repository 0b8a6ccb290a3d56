/**
 One layer of the tiered KV cache: a bounded arena of GPU slots in front of a pool of host slots.
 Every operation is a function from state to outcome; an exception of the original is an `Err` with the state
 it leaves behind.
 A block is the pair of its key rows and value rows; a half-written block has unspecified later rows.
 */
module TierModel {
  import opened Lists
  import opened SlotMap
  import opened WorkingSet

  datatype KV<T> = KV(k: seq<T>, v: seq<T>)

  datatype Residency = OnGpu | Evicting | OnCpu | Loading

  datatype Failure =
    | PoolFull        // the host pool has no free slot
    | NotFound        // the block is neither in the arena nor on the host
    | BadTransition   // the residency state machine refuses
    | NoBackup        // write-through eviction of a block that was never mirrored
    | ArenaOverflow   // the one-shot trim met a full arena
    | NoArena         // the arena has no slots at all

  datatype Tier<T> = Tier(
    blockSize: nat,
    writeThrough: bool,
    mixture: bool,
    lru: Lru,
    gpu: seq<KV<T>>,
    cpu: seq<KV<T>>,
    cpuFree: seq<nat>,
    cpuSlots: map<Key, nat>,
    hostSlots: map<Key, nat>,
    residency: map<nat, Residency>,
    trimmed: set<nat>,
    prevSelected: map<nat, set<nat>>,
    prefetchTouch: bool)

  /** A raise keeps whatever was done before it. */
  datatype Outcome<T> = Ok(state: Tier<T>) | Err(error: Failure, state: Tier<T>)

  predicate Refused<T>(r: Outcome<T>) { r.Err? && r.error == BadTransition }

  // ------------------------------------------------------------------ residency

  /** Rows start out OnGpu. The table is indexed by block alone, not by sequence. */
  function StateOf(residency: map<nat, Residency>, block: nat): Residency {
    if block in residency then residency[block] else OnGpu
  }

  predicate MayEvict(residency: map<nat, Residency>, block: nat) {
    StateOf(residency, block) in {OnGpu, Evicting}
  }

  predicate MayLoad(residency: map<nat, Residency>, block: nat) {
    StateOf(residency, block) == OnCpu
  }

  // ------------------------------------------------------------------ host pool

  /** The map that records host copies: durable mirrors under write-through, spilled blocks otherwise. */
  function Backing<T>(t: Tier<T>): map<Key, nat> {
    if t.writeThrough then t.hostSlots else t.cpuSlots
  }

  /** Host slots are either free or recorded for exactly one key. */
  ghost predicate PoolOk(size: nat, free: seq<nat>, at: map<Key, nat>) {
    && NoDup(free)
    && (forall c :: c in free ==> c < size)
    && (forall x :: x in at ==> at[x] < size && at[x] !in free)
    && (forall x, y :: x in at && y in at && at[x] == at[y] ==> x == y)
  }

  ghost predicate AllSized<T>(cells: seq<KV<T>>, blockSize: nat) {
    forall i :: 0 <= i < |cells| ==> Sized(cells[i], blockSize)
  }

  /** Shapes the original guarantees by construction. */
  ghost predicate Shaped<T>(t: Tier<T>) {
    && t.lru.Valid() && |t.gpu| == t.lru.capacity && t.blockSize > 0
    && AllSized(t.gpu, t.blockSize) && AllSized(t.cpu, t.blockSize)
    && (if t.writeThrough then t.cpuSlots == map[] else t.hostSlots == map[])
    && PoolOk(|t.cpu|, t.cpuFree, Backing(t))
  }

  /** A layer nobody has used yet: arena empty, every host slot free, every row in its initial state. */
  ghost predicate New<T>(t: Tier<T>) {
    && t.lru.order == [] && t.cpuFree == seq(|t.cpu|, i requires 0 <= i < |t.cpu| => |t.cpu| - 1 - i)
    && t.cpuSlots == map[] && t.hostSlots == map[] && t.residency == map[] && t.trimmed == {} && t.prevSelected == map[]
  }

  predicate Sized<T>(kv: KV<T>, blockSize: nat) {
    |kv.k| == blockSize == |kv.v|
  }

  /** Copies `kv` into a newly allocated host slot recorded for `key`. */
  function StoreOnHost<T>(t: Tier<T>, key: Key, kv: KV<T>): (r: Tier<T>)
    requires Shaped(t) && t.cpuFree != []
  {
    assert t.cpuFree[|t.cpuFree| - 1] in t.cpuFree;
    var c := t.cpuFree[|t.cpuFree| - 1];
    var u := t.(cpuFree := t.cpuFree[..|t.cpuFree| - 1], cpu := t.cpu[c := kv]);
    if t.writeThrough then u.(hostSlots := t.hostSlots[key := c]) else u.(cpuSlots := t.cpuSlots[key := c])
  }

  /** What eviction does with the victim's contents: drop them if mirrored, otherwise copy them out. */
  function Spill<T>(t: Tier<T>, victim: Key, slot: nat): Outcome<T>
    requires Shaped(t) && slot < |t.gpu|
  {
    if t.writeThrough then
      if victim !in t.hostSlots then Err(NoBackup, t)
      else if !MayEvict(t.residency, victim.block) then Err(BadTransition, t)
      else Ok(t.(residency := t.residency[victim.block := OnCpu]))
    else if t.cpuFree == [] then Err(PoolFull, t)
    else if !MayEvict(t.residency, victim.block) then Err(BadTransition, t.(cpuFree := t.cpuFree[..|t.cpuFree| - 1]))
    else Ok(StoreOnHost(t, victim, t.gpu[slot]).(residency := t.residency[victim.block := OnCpu]))
  }

  /** Write-through copy of a full block, made at most once. */
  function Mirror<T>(t: Tier<T>, key: Key, kv: KV<T>): Outcome<T>
    requires Shaped(t) && t.writeThrough
  {
    if key in t.hostSlots then Ok(t)
    else if t.cpuFree == [] then Err(PoolFull, t)
    else Ok(StoreOnHost(t, key, kv))
  }

  lemma PoolTake(size: nat, free: seq<nat>, at: map<Key, nat>, key: Key)
    requires PoolOk(size, free, at) && free != []
    ensures var c := free[|free| - 1];
            c in free && c < size && c !in at.Values && PoolOk(size, free[..|free| - 1], at[key := c])
  {
    var c := free[|free| - 1];
    var rest := free[..|free| - 1];
    assert free == rest + [c];
    NoDupSnoc(rest, c);
    assert forall f :: f in rest ==> f in free;
    assert c in free;
  }

  lemma PoolGive(size: nat, free: seq<nat>, at: map<Key, nat>, c: nat)
    requires PoolOk(size, free, at) && c < size && c !in free && c !in at.Values
    ensures PoolOk(size, free + [c], at)
  {
    NoDupSnoc(free, c);
  }

  lemma PoolForget(size: nat, free: seq<nat>, at: map<Key, nat>, key: Key)
    requires PoolOk(size, free, at) && key in at
    ensures PoolOk(size, free, at - {key}) && at[key] !in (at - {key}).Values && at[key] !in free && at[key] < size
  {
  }

  lemma StoreShaped<T>(t: Tier<T>, key: Key, kv: KV<T>)
    requires Shaped(t) && t.cpuFree != [] && Sized(kv, t.blockSize)
    ensures Shaped(StoreOnHost(t, key, kv)) && |StoreOnHost(t, key, kv).cpu| == |t.cpu|
  {
    PoolTake(|t.cpu|, t.cpuFree, Backing(t), key);
  }

  // ------------------------------------------------------------------ arena

  datatype Placement<T> = Placed(state: Tier<T>, slot: nat) | NotPlaced(error: Failure, state: Tier<T>)

  lemma SpillShaped<T>(t: Tier<T>, victim: Key, slot: nat)
    requires Shaped(t) && slot < |t.gpu|
    ensures Spill(t, victim, slot).Ok? ==>
              var w := Spill(t, victim, slot).state;
              Shaped(w) && w.gpu == t.gpu && w.lru == t.lru && SameMode(w, t)
  {
    hide Lru.Valid, PoolOk;
    assert Sized(t.gpu[slot], t.blockSize);
    if !t.writeThrough && t.cpuFree != [] { StoreShaped(t, victim, t.gpu[slot]); }
  }

  ghost predicate SameMode<T>(t: Tier<T>, u: Tier<T>) {
    && t.blockSize == u.blockSize && t.writeThrough == u.writeThrough && t.mixture == u.mixture
    && |t.cpu| == |u.cpu| && t.trimmed == u.trimmed && t.prevSelected == u.prevSelected &&
       t.prefetchTouch == u.prefetchTouch
    && t.lru.capacity == u.lru.capacity
  }

  /** Gives `key` an arena slot, moving out whatever had to make room. */
  function Place<T>(t: Tier<T>, key: Key, protected: set<Key>): (r: Placement<T>)
    requires Shaped(t)
  {
    AddValid(t.lru, key, protected);
    match Add(t.lru, key, protected)
    case None => NotPlaced(NoArena, t)
    case Some(Added(lru, slot, evicted)) =>
      var u := t.(lru := lru);
      if evicted.None? then Placed(u, slot)
      else match Spill(u, evicted.value, slot)
        case Ok(w) => Placed(w, slot)
        case Err(e, w) => NotPlaced(e, w)
  }

  lemma PlaceShaped<T>(t: Tier<T>, key: Key, protected: set<Key>)
    requires Shaped(t)
    ensures Place(t, key, protected).Placed? ==>
              var Placed(u, slot) := Place(t, key, protected);
              Shaped(u) && u.gpu == t.gpu && SameMode(u, t) && key in u.lru.slot && u.lru.slot[key] == slot < |u.gpu|
  {
    hide Add, Spill, PoolOk;
    AddValid(t.lru, key, protected);
    if Add(t.lru, key, protected).Some? {
      var Added(lru, slot, evicted) := Add(t.lru, key, protected).value;
      assert key in lru.slot && lru.slot[key] == slot;
      if evicted.Some? { SpillShaped(t.(lru := lru), evicted.value, slot); }
    }
  }

  /** A host slot that is neither free nor recorded survives making room. */
  ghost predicate Reserved<T>(t: Tier<T>, c: nat) {
    c < |t.cpu| && c !in t.cpuFree && c !in Backing(t).Values
  }

  lemma SpillReserved<T>(t: Tier<T>, victim: Key, slot: nat, c: nat)
    requires Shaped(t) && slot < |t.gpu| && Reserved(t, c) && Spill(t, victim, slot).Ok?
    ensures var u := Spill(t, victim, slot).state; Reserved(u, c) && u.cpu[c] == t.cpu[c]
  {
    hide Lru.Valid;
    if !t.writeThrough {
      PoolTake(|t.cpu|, t.cpuFree, Backing(t), victim);
      assert forall f :: f in t.cpuFree[..|t.cpuFree| - 1] ==> f in t.cpuFree;
    }
  }

  lemma PlaceReserved<T>(t: Tier<T>, key: Key, protected: set<Key>, c: nat)
    requires Shaped(t) && Reserved(t, c) && Place(t, key, protected).Placed?
    ensures var u := Place(t, key, protected).state; Reserved(u, c) && u.cpu[c] == t.cpu[c]
  {
    hide Spill;
    PlaceShaped(t, key, protected);
    AddValid(t.lru, key, protected);
    var Added(lru, slot, evicted) := Add(t.lru, key, protected).value;
    if evicted.Some? {
      SpillReserved(t.(lru := lru), evicted.value, slot, c);
    }
  }

  function ProtectedKeys<T>(t: Tier<T>, seqId: nat): set<Key> {
    if t.mixture && seqId in t.prevSelected then set b | b in t.prevSelected[seqId] :: Key(seqId, b) else {}
  }

  // ------------------------------------------------------------------ operations

  function Written<T>(t: Tier<T>, slot: nat, kv: KV<T>, block: nat): (r: Tier<T>)
    requires Shaped(t) && slot < |t.gpu| && Sized(kv, t.blockSize)
    ensures Shaped(r)
  {
    t.(gpu := t.gpu[slot := kv], residency := t.residency[block := OnGpu])
  }

  /** The live, still growing block: copied into the arena, never mirrored. */
  function WriteLive<T>(t: Tier<T>, key: Key, kv: KV<T>): (r: Outcome<T>)
    requires Shaped(t) && Sized(kv, t.blockSize)
  {
    PlaceShaped(t, key, {});
    match Place(t, key, {})
    case NotPlaced(e, u) => Err(e, u)
    case Placed(u, slot) => Ok(Written(u, slot, kv, key.block))
  }

  /** A block that just became full. */
  function Fill<T>(t: Tier<T>, key: Key, kv: KV<T>): Outcome<T>
    requires Shaped(t) && Sized(kv, t.blockSize)
  {
    PlaceShaped(t, key, {});
    match Place(t, key, {})
    case NotPlaced(e, u) => Err(e, u)
    case Placed(u, slot) =>
      var w := Written(u, slot, kv, key.block);
      if t.writeThrough then Mirror(w, key, kv) else Ok(w)
  }

  /** One decode token at sequence position `pos`, written straight into the live block's arena slot. */
  function AppendToken<T>(t: Tier<T>, seqId: nat, pos: nat, kRow: T, vRow: T): Outcome<T>
    requires Shaped(t)
  {
    AppendAt(t, Key(seqId, pos / t.blockSize), pos % t.blockSize, kRow, vRow)
  }

  function AppendAt<T>(t: Tier<T>, key: Key, offset: nat, kRow: T, vRow: T): Outcome<T>
    requires Shaped(t) && offset < t.blockSize
  {
    PlaceShaped(t, key, {});
    match Place(t, key, {})
    case NotPlaced(e, u) => Err(e, u)
    case Placed(u, slot) =>
      assert Sized(u.gpu[slot], t.blockSize);
      var kv := WithRow(u.gpu[slot], offset, kRow, vRow);
      var w := Written(u, slot, kv, key.block);
      if offset == t.blockSize - 1 && t.writeThrough then Mirror(w, key, kv) else Ok(w)
  }

  function WithRow<T>(kv: KV<T>, offset: nat, kRow: T, vRow: T): (r: KV<T>)
    requires offset < |kv.k| && offset < |kv.v|
    ensures |r.k| == |kv.k| && |r.v| == |kv.v|
  {
    KV(kv.k[offset := kRow], kv.v[offset := vRow])
  }

  lemma TakenShaped<T>(t: Tier<T>, key: Key)
    requires Shaped(t) && key in Backing(t)
    ensures Shaped(t.(cpuSlots := t.cpuSlots - {key}))
  {
    PoolForget(|t.cpu|, t.cpuFree, Backing(t), key);
  }

  /** Makes one selected block resident, reloading it from the host if it is not. */
  function EnsureOne<T>(t: Tier<T>, key: Key): Outcome<T>
    requires Shaped(t)
  {
    if key in t.lru.slot then Ok(t.(lru := Touch(t.lru, key)))
    else if key !in Backing(t) then Err(NotFound, t)
    else
      TakenShaped(t, key);
      PlaceShaped(t.(cpuSlots := t.cpuSlots - {key}), key, ProtectedKeys(t, key.seqId));
      match Place(t.(cpuSlots := t.cpuSlots - {key}), key, ProtectedKeys(t, key.seqId))
      case NotPlaced(e, u) => Err(e, u)
      case Placed(u, slot) =>
        if !MayLoad(u.residency, key.block) then Err(BadTransition, u)
        else
          var c := Backing(t)[key];
          assert Sized(u.cpu[c], t.blockSize);
          var w := Written(u, slot, u.cpu[c], key.block);
          Ok(if t.writeThrough then w else w.(cpuFree := w.cpuFree + [c]))
  }

  lemma EnsureOneShaped<T>(t: Tier<T>, key: Key)
    requires Shaped(t) && EnsureOne(t, key).Ok?
    ensures Shaped(EnsureOne(t, key).state) && SameMode(EnsureOne(t, key).state, t)
  {
    if key in t.lru.slot {
      hide PoolOk;
      TouchValid(t.lru, key);
    } else {
      ReloadShaped(t, key);
    }
  }

  lemma ReloadShaped<T>(t: Tier<T>, key: Key)
    requires Shaped(t) && key !in t.lru.slot && EnsureOne(t, key).Ok?
    ensures Shaped(EnsureOne(t, key).state) && SameMode(EnsureOne(t, key).state, t)
  {
    hide Lru.Valid, Place, PoolOk;
    var c, t0, protected := Backing(t)[key], t.(cpuSlots := t.cpuSlots - {key}), ProtectedKeys(t, key.seqId);
    PoolForget(|t.cpu|, t.cpuFree, Backing(t), key);
    TakenShaped(t, key);
    PlaceShaped(t0, key, protected);
    if !t.writeThrough {
      PlaceReserved(t0, key, protected, c);
      var u := Place(t0, key, protected).state;
      PoolGive(|u.cpu|, u.cpuFree, Backing(u), c);
    }
  }

  function KeysOf(seqId: nat, blocks: seq<nat>): (r: seq<Key>)
    ensures |r| == |blocks| && forall i :: 0 <= i < |r| ==> r[i] == Key(seqId, blocks[i])
  {
    seq(|blocks|, i requires 0 <= i < |blocks| => Key(seqId, blocks[i]))
  }

  function EnsureAll<T>(t: Tier<T>, keys: seq<Key>): Outcome<T>
    requires Shaped(t)
    decreases |keys|
  {
    if keys == [] then Ok(t)
    else match EnsureOne(t, keys[0])
      case Err(e, u) => Err(e, u)
      case Ok(u) => EnsureOneShaped(t, keys[0]); EnsureAll(u, keys[1..])
  }

  /** Both passes of a decode step: touch what is needed and already there, then reload the rest. */
  function EnsureResident<T>(t: Tier<T>, seqId: nat, ids: seq<nat>, keep: seq<nat>): Outcome<T>
    requires Shaped(t)
  {
    TouchedShaped(t, KeysOf(seqId, ids), KeysOf(seqId, keep));
    EnsureAll(Touched(t, KeysOf(seqId, ids), KeysOf(seqId, keep)), KeysOf(seqId, ids))
  }

  function Touched<T>(t: Tier<T>, ids: seq<Key>, keep: seq<Key>): Tier<T> {
    t.(lru := TouchAll(TouchAll(t.lru, keep), ids))
  }

  lemma TouchedShaped<T>(t: Tier<T>, ids: seq<Key>, keep: seq<Key>)
    requires Shaped(t)
    ensures Shaped(Touched(t, ids, keep)) && Touched(t, ids, keep).lru.slot == t.lru.slot
  {
    hide PoolOk;
    TouchAllValid(t.lru, keep);
    TouchAllValid(TouchAll(t.lru, keep), ids);
  }

  /** Speculative reload for the next layer; an untrusted guess is left first in line for eviction. */
  function Prefetch<T>(t: Tier<T>, keys: seq<Key>): Outcome<T>
    requires Shaped(t)
    decreases |keys|
  {
    if keys == [] then Ok(t)
    else match EnsureOne(t, keys[0])
      case Err(e, u) => Err(e, u)
      case Ok(u) =>
        EnsureOneShaped(t, keys[0]);
        DemotedShaped(u, keys[0]);
        Prefetch(Demoted(u, keys[0]), keys[1..])
  }

  function Demoted<T>(t: Tier<T>, key: Key): Tier<T> {
    if !t.prefetchTouch && key in t.lru.slot then t.(lru := Demote(t.lru, key)) else t
  }

  lemma DemotedShaped<T>(t: Tier<T>, key: Key)
    requires Shaped(t)
    ensures Shaped(Demoted(t, key))
  {
    hide PoolOk;
    if key in t.lru.slot { TouchValid(t.lru, key); }
  }

  function SetPrevSelected<T>(t: Tier<T>, seqId: nat, blocks: set<nat>): Tier<T> {
    if t.mixture then t.(prevSelected := t.prevSelected[seqId := blocks]) else t
  }

  // ------------------------------------------------------------------ trim

  function KeepFrom(blocks: nat, capacity: nat): nat {
    if capacity == 0 then blocks else if blocks <= capacity - 1 then 0 else blocks - (capacity - 1)
  }

  /** One prompt block of the trim: kept in the arena when it is among the last ones, else sent to the host. */
  function TrimBlock<T>(t: Tier<T>, key: Key, kv: KV<T>, kept: bool): Outcome<T>
    requires Shaped(t) && Sized(kv, t.blockSize)
  {
    if kept then
      AddValid(t.lru, key, {});
      match Add(t.lru, key, {})
      case None => Err(NoArena, t)
      case Some(Added(lru, slot, evicted)) =>
        if evicted.Some? then Err(ArenaOverflow, t.(lru := lru))
        else
          var w := Written(t.(lru := lru), slot, kv, key.block);
          if t.writeThrough then Mirror(w, key, kv) else Ok(w)
    else if t.writeThrough then
      match Mirror(t, key, kv)
      case Err(e, u) => Err(e, u)
      case Ok(u) =>
        if MayEvict(u.residency, key.block) then Ok(u.(residency := u.residency[key.block := OnCpu]))
        else Err(BadTransition, u)
    else if t.cpuFree == [] then Err(PoolFull, t)
    else if !MayEvict(t.residency, key.block) then Err(BadTransition, StoreOnHost(t, key, kv))
    else Ok(StoreOnHost(t, key, kv).(residency := t.residency[key.block := OnCpu]))
  }

  lemma MirrorShaped<T>(t: Tier<T>, key: Key, kv: KV<T>)
    requires Shaped(t) && t.writeThrough && Sized(kv, t.blockSize) && Mirror(t, key, kv).Ok?
    ensures Shaped(Mirror(t, key, kv).state) && SameMode(Mirror(t, key, kv).state, t)
  {
    hide Lru.Valid, PoolOk;
    if key !in t.hostSlots { StoreShaped(t, key, kv); }
  }

  lemma TrimBlockShaped<T>(t: Tier<T>, key: Key, kv: KV<T>, kept: bool)
    requires Shaped(t) && Sized(kv, t.blockSize) && TrimBlock(t, key, kv, kept).Ok?
    ensures Shaped(TrimBlock(t, key, kv, kept).state) && SameMode(TrimBlock(t, key, kv, kept).state, t)
  {
    hide Add, Mirror, PoolOk;
    if kept {
      AddValid(t.lru, key, {});
      var a := Add(t.lru, key, {}).value;
      var w := Written(t.(lru := a.lru), a.slot, kv, key.block);
      if t.writeThrough { MirrorShaped(w, key, kv); }
    } else if t.writeThrough {
      MirrorShaped(t, key, kv);
    } else {
      StoreShaped(t, key, kv);
    }
  }

  /** Blocks `b..` of the prompt, in order. */
  function TrimFrom<T>(t: Tier<T>, seqId: nat, blocks: seq<KV<T>>, keepFrom: nat, b: nat): Outcome<T>
    requires Shaped(t) && AllSized(blocks, t.blockSize) && b <= |blocks|
    decreases |blocks| - b
  {
    if b == |blocks| then Ok(t)
    else match TrimBlock(t, Key(seqId, b), blocks[b], b >= keepFrom)
      case Err(e, u) => Err(e, u)
      case Ok(u) =>
        TrimBlockShaped(t, Key(seqId, b), blocks[b], b >= keepFrom);
        TrimFrom(u, seqId, blocks, keepFrom, b + 1)
  }

  /** The one-shot prefill to decode hand-over; a second call for the same sequence does nothing. */
  function Trim<T>(t: Tier<T>, seqId: nat, blocks: seq<KV<T>>): Outcome<T>
    requires Shaped(t) && AllSized(blocks, t.blockSize)
  {
    if seqId in t.trimmed then Ok(t)
    else TrimFrom(t.(trimmed := t.trimmed + {seqId}), seqId, blocks, KeepFrom(|blocks|, t.lru.capacity), 0)
  }

  /** Copies the first rows of a block into the arena slot of `key`, leaving the rest of the slot as it is. */
  function Stage<T>(t: Tier<T>, key: Key, rows: KV<T>): Outcome<T>
    requires Shaped(t) && |rows.k| == |rows.v| <= t.blockSize
  {
    PlaceShaped(t, key, {});
    match Place(t, key, {})
    case NotPlaced(e, u) => Err(e, u)
    case Placed(u, slot) =>
      assert Sized(u.gpu[slot], t.blockSize);
      Ok(Written(u, slot, Over(rows, u.gpu[slot]), key.block))
  }

  function Over<T>(rows: KV<T>, kv: KV<T>): (r: KV<T>)
    requires |rows.k| <= |kv.k| && |rows.v| <= |kv.v|
    ensures |r.k| == |kv.k| && |r.v| == |kv.v|
  {
    KV(rows.k + kv.k[|rows.k|..], rows.v + kv.v[|rows.v|..])
  }

  /** Prefill hand-over straight from the layer's own keys and values, with the partial last block staged. */
  function Ingest<T>(t: Tier<T>, seqId: nat, blocks: seq<KV<T>>, tail: KV<T>): Outcome<T>
    requires Shaped(t) && AllSized(blocks, t.blockSize) && |tail.k| == |tail.v| < t.blockSize
  {
    if seqId in t.trimmed then Ok(t)
    else match Trim(t, seqId, blocks)
      case Err(e, u) => Err(e, u)
      case Ok(u) =>
        TrimShaped(t, seqId, blocks);
        if |tail.k| > 0 then Stage(u, Key(seqId, |blocks|), tail) else Ok(u)
  }

  lemma {:induction false} TrimFromShaped<T>(t: Tier<T>, seqId: nat, blocks: seq<KV<T>>, keepFrom: nat, b: nat)
    requires Shaped(t) && AllSized(blocks, t.blockSize) && b <= |blocks|
    requires TrimFrom(t, seqId, blocks, keepFrom, b).Ok?
    ensures Shaped(TrimFrom(t, seqId, blocks, keepFrom, b).state)
    ensures SameMode(TrimFrom(t, seqId, blocks, keepFrom, b).state, t)
    decreases |blocks| - b
  {
    hide TrimBlock, Lru.Valid, PoolOk;
    if b < |blocks| {
      TrimBlockShaped(t, Key(seqId, b), blocks[b], b >= keepFrom);
      TrimFromShaped(TrimBlock(t, Key(seqId, b), blocks[b], b >= keepFrom).state, seqId, blocks, keepFrom, b + 1);
    }
  }

  lemma TrimShaped<T>(t: Tier<T>, seqId: nat, blocks: seq<KV<T>>)
    requires Shaped(t) && AllSized(blocks, t.blockSize) && Trim(t, seqId, blocks).Ok?
    ensures Shaped(Trim(t, seqId, blocks).state) && Trim(t, seqId, blocks).state.blockSize == t.blockSize
    ensures Trim(t, seqId, blocks).state.writeThrough == t.writeThrough
    ensures Trim(t, seqId, blocks).state.lru.capacity == t.lru.capacity && |Trim(t, seqId, blocks).state.cpu| == |t.cpu|
    ensures Trim(t, seqId, blocks).state.mixture == t.mixture &&
            Trim(t, seqId, blocks).state.prefetchTouch == t.prefetchTouch
  {
    hide TrimFrom;
    if seqId !in t.trimmed {
      TrimFromShaped(t.(trimmed := t.trimmed + {seqId}), seqId, blocks, KeepFrom(|blocks|, t.lru.capacity), 0);
    }
  }

  // ------------------------------------------------------------------ release

  function SeqKeys(order: seq<Key>, seqId: nat): (r: seq<Key>)
    ensures forall k :: k in r <==> k in order && k.seqId == seqId
  {
    if order == [] then []
    else (if order[0].seqId == seqId then [order[0]] else []) + SeqKeys(order[1..], seqId)
  }

  function FreeAll(l: Lru, keys: seq<Key>): Lru
    decreases |keys|
  {
    if keys == [] then l
    else FreeAll(if keys[0] in l.slot then Free(l, keys[0]) else l, keys[1..])
  }

  function Blocks(keys: set<Key>): set<nat> {
    set k | k in keys :: k.block
  }

  /** Resets the residency rows of the given keys to the initial state. */
  function MarkOnGpu(residency: map<nat, Residency>, keys: set<Key>): map<nat, Residency> {
    residency + map b | b in Blocks(keys) :: OnGpu
  }

  /** `hostKeys` lists the host copies of one sequence in whatever order the dictionary yields them. */
  ghost predicate ListsCopies(hostKeys: seq<Key>, at: map<Key, nat>, seqId: nat) {
    NoDup(hostKeys) && forall k :: k in hostKeys <==> k in at && k.seqId == seqId
  }

  function SlotsOf(at: map<Key, nat>, keys: seq<Key>): (r: seq<nat>)
    requires forall k :: k in keys ==> k in at
    ensures |r| == |keys| && forall i :: 0 <= i < |r| ==> r[i] == at[keys[i]]
  {
    seq(|keys|, i requires 0 <= i < |keys| => assert keys[i] in keys; at[keys[i]])
  }

  /** Drops every trace of a finished sequence and returns its slots to both pools. */
  function Release<T>(t: Tier<T>, seqId: nat, hostKeys: seq<Key>): Tier<T>
    requires ListsCopies(hostKeys, Backing(t), seqId)
  {
    var gone := SeqKeys(t.lru.order, seqId);
    t.(lru := FreeAll(t.lru, gone),
       cpuFree := t.cpuFree + SlotsOf(Backing(t), hostKeys),
       cpuSlots := t.cpuSlots - Elems(hostKeys),
       hostSlots := t.hostSlots - Elems(hostKeys),
       trimmed := t.trimmed - {seqId},
       prevSelected := t.prevSelected - {seqId},
       residency := MarkOnGpu(t.residency, Elems(gone) + Elems(hostKeys)))
  }
}
