/**
 Exactly when a single write, reload or hand-over block raises, and with which error, in any state and with any number
 of sequences cached. The conditions speak of the state before the call: who is first in line for eviction, whether
 the pools have room, and what the residency rows say.
 */
module TierFailure {
  import opened Lists
  import opened SlotMap
  import opened TierModel

  function Raised<T>(r: Outcome<T>): Option<Failure> {
    if r.Ok? then None else Some(r.error)
  }

  predicate RoomLeft<T>(t: Tier<T>, key: Key) {
    key in t.lru.slot || t.lru.free != []
  }

  /** A block can leave the arena: its copy exists already, or there is a host slot to copy it to. */
  predicate Sheltered<T>(t: Tier<T>, victim: Key) {
    if t.writeThrough then victim in t.hostSlots else t.cpuFree != []
  }

  function SpillFailure<T>(t: Tier<T>, victim: Key): Option<Failure> {
    if !Sheltered(t, victim) then Some(if t.writeThrough then NoBackup else PoolFull)
    else if !MayEvict(t.residency, victim.block) then Some(BadTransition)
    else None
  }

  lemma SpillFails<T>(t: Tier<T>, victim: Key, slot: nat)
    requires Shaped(t) && slot < |t.gpu|
    ensures Raised(Spill(t, victim, slot)) == SpillFailure(t, victim)
    ensures Spill(t, victim, slot).Ok? ==>
              var u := Spill(t, victim, slot).state;
              && (t.writeThrough ==> u.cpuFree == t.cpuFree && u.hostSlots == t.hostSlots)
              && u.residency == t.residency[victim.block := OnCpu]
  {
    hide PoolOk, AllSized, Lru.Valid;
  }

  /** What stands in the way of giving `key` an arena slot. */
  function RoomFailure<T>(t: Tier<T>, key: Key, protected: set<Key>): Option<Failure> {
    if RoomLeft(t, key) then None
    else if t.lru.order == [] then Some(NoArena)
    else SpillFailure(t, Victim(t.lru.order, protected))
  }

  lemma PlaceFails<T>(t: Tier<T>, key: Key, protected: set<Key>)
    requires Shaped(t)
    ensures var r := Place(t, key, protected);
            (if r.Placed? then None else Some(r.error)) == RoomFailure(t, key, protected)
    ensures Place(t, key, protected).Placed? ==>
              var u := Place(t, key, protected).state;
              && (t.writeThrough ==> u.cpuFree == t.cpuFree && u.hostSlots == t.hostSlots)
              && u.residency == if RoomLeft(t, key) then t.residency
                                else t.residency[Victim(t.lru.order, protected).block := OnCpu]
  {
    hide PoolOk, AllSized, Spill;
    AddValid(t.lru, key, protected);
    if !RoomLeft(t, key) && t.lru.order != [] {
      var a := Add(t.lru, key, protected).value;
      SpillFails(t.(lru := a.lru), a.evicted.value, a.slot);
    }
  }

  // ------------------------------------------------------------------ writes

  function MirrorFailure<T>(t: Tier<T>, key: Key): Option<Failure> {
    if t.writeThrough && key !in t.hostSlots && t.cpuFree == [] then Some(PoolFull) else None
  }

  function Either(a: Option<Failure>, b: Option<Failure>): Option<Failure> {
    if a.Some? then a else b
  }

  lemma MirrorFails<T>(t: Tier<T>, key: Key, kv: KV<T>)
    requires Shaped(t) && t.writeThrough
    ensures Raised(Mirror(t, key, kv)) == MirrorFailure(t, key)
    ensures Mirror(t, key, kv).Ok? ==>
              var u := Mirror(t, key, kv).state;
              && |u.cpuFree| + (if key in t.hostSlots then 0 else 1) == |t.cpuFree| && u.lru == t.lru && u.writeThrough
              && u.residency == t.residency && u.hostSlots.Keys == t.hostSlots.Keys + {key}
  {
    hide PoolOk, Lru.Valid, AllSized;
  }

  lemma WritesFail<T>(t: Tier<T>, key: Key, kv: KV<T>)
    requires Shaped(t) && Sized(kv, t.blockSize)
    ensures Raised(Fill(t, key, kv)) == Either(RoomFailure(t, key, {}), MirrorFailure(t, key))
    ensures Raised(WriteLive(t, key, kv)) == RoomFailure(t, key, {})
  {
    hide PoolOk, Lru.Valid, AllSized, Place, RoomFailure;
    PlaceFails(t, key, {});
    PlaceShaped(t, key, {});
  }

  lemma AppendFails<T>(t: Tier<T>, key: Key, offset: nat, kRow: T, vRow: T)
    requires Shaped(t) && offset < t.blockSize
    ensures Raised(AppendAt(t, key, offset, kRow, vRow))
            == Either(RoomFailure(t, key, {}), if offset == t.blockSize - 1 then MirrorFailure(t, key) else None)
  {
    hide PoolOk, Lru.Valid, Place, RoomFailure, WithRow;
    PlaceFails(t, key, {});
    PlaceShaped(t, key, {});
    if Place(t, key, {}).Placed? {
      var Placed(u, slot) := Place(t, key, {});
      assert Sized(u.gpu[slot], u.blockSize);
    }
  }

  lemma StageFails<T>(t: Tier<T>, key: Key, rows: KV<T>)
    requires Shaped(t) && |rows.k| == |rows.v| <= t.blockSize
    ensures Raised(Stage(t, key, rows)) == RoomFailure(t, key, {})
  {
    hide PoolOk, Lru.Valid, Place, RoomFailure, Over;
    PlaceFails(t, key, {});
  }

  // ------------------------------------------------------------------ reloads

  /** After making room the row of `key` must read OnCpu; evicting its namesake of another sequence sees to that. */
  predicate RowLoads<T>(t: Tier<T>, key: Key, protected: set<Key>) {
    || MayLoad(t.residency, key.block)
    || (t.lru.free == [] && t.lru.order != [] && Victim(t.lru.order, protected).block == key.block)
  }

  function ReloadFailure<T>(t: Tier<T>, key: Key): Option<Failure> {
    if key in t.lru.slot then None
    else if key !in Backing(t) then Some(NotFound)
    else Either(RoomFailure(t, key, ProtectedKeys(t, key.seqId)),
                if RowLoads(t, key, ProtectedKeys(t, key.seqId)) then None else Some(BadTransition))
  }

  /** The exact outcome of asking for one block. */
  lemma ReloadOkIff<T>(t: Tier<T>, key: Key)
    requires Shaped(t)
    ensures Raised(EnsureOne(t, key)) == ReloadFailure(t, key)
  {
    hide PoolOk, Lru.Valid, AllSized, Place, RoomFailure;
    if key !in t.lru.slot && key in Backing(t) {
      var t0, protected := t.(cpuSlots := t.cpuSlots - {key}), ProtectedKeys(t, key.seqId);
      TakenShaped(t, key);
      PlaceFails(t0, key, protected);
      PlaceShaped(t0, key, protected);
      RoomFailureSame(t, t0, key, protected);
    }
  }

  lemma RoomFailureSame<T>(t: Tier<T>, u: Tier<T>, key: Key, protected: set<Key>)
    requires t.lru == u.lru && t.writeThrough == u.writeThrough && t.hostSlots == u.hostSlots
    requires t.cpuFree == u.cpuFree && t.residency == u.residency
    ensures RoomFailure(t, key, protected) == RoomFailure(u, key, protected)
  {
  }

  /** A reload is refused by the residency table exactly when its row, or its victim's row, reads wrong. */
  lemma ReloadRefusedIff<T>(t: Tier<T>, key: Key)
    requires Shaped(t)
    ensures Refused(EnsureOne(t, key)) <==> ReloadRefused(t, key)
  {
    ReloadOkIff(t, key);
  }

  predicate RoomRefused<T>(t: Tier<T>, key: Key, protected: set<Key>) {
    && !RoomLeft(t, key) && t.lru.order != []
    && Sheltered(t, Victim(t.lru.order, protected)) && !MayEvict(t.residency, Victim(t.lru.order, protected).block)
  }

  predicate ReloadRefused<T>(t: Tier<T>, key: Key) {
    var protected := ProtectedKeys(t, key.seqId);
    && key !in t.lru.slot && key in Backing(t)
    && if t.lru.free != [] then !MayLoad(t.residency, key.block)
       else
         && t.lru.order != [] && Sheltered(t, Victim(t.lru.order, protected))
         && (|| !MayEvict(t.residency, Victim(t.lru.order, protected).block)
             || (Victim(t.lru.order, protected).block != key.block && !MayLoad(t.residency, key.block)))
  }

  lemma RoomRefusedIff<T>(t: Tier<T>, key: Key, protected: set<Key>)
    ensures RoomFailure(t, key, protected) == Some(BadTransition) <==> RoomRefused(t, key, protected)
  {
  }

  // ------------------------------------------------------------------ prompt hand-over

  function TrimFailure<T>(t: Tier<T>, key: Key, kept: bool): Option<Failure> {
    if kept then
      if t.lru.capacity == 0 then Some(NoArena)
      else if !RoomLeft(t, key) then Some(ArenaOverflow)
      else MirrorFailure(t, key)
    else
      Either(if SlotsFor(t, key) > |t.cpuFree| then Some(PoolFull) else None,
             if MayEvict(t.residency, key.block) then None else Some(BadTransition))
  }

  /** Host slots that sending one prompt block out takes. */
  function SlotsFor<T>(t: Tier<T>, key: Key): nat {
    if t.writeThrough && key in t.hostSlots then 0 else 1
  }

  lemma KeptFails<T>(t: Tier<T>, key: Key, kv: KV<T>)
    requires Shaped(t) && Sized(kv, t.blockSize)
    ensures Raised(TrimBlock(t, key, kv, true)) == TrimFailure(t, key, true)
  {
    hide PoolOk, AllSized, Mirror, Add, Lru.Valid;
    AddValid(t.lru, key, {});
    if t.writeThrough && t.lru.capacity > 0 && RoomLeft(t, key) {
      var a := Add(t.lru, key, {}).value;
      MirrorFails(Written(t.(lru := a.lru), a.slot, kv, key.block), key, kv);
    }
  }

  /** What sending one block out does to the part of the state later blocks depend on. */
  lemma SentFails<T>(t: Tier<T>, key: Key, kv: KV<T>)
    requires Shaped(t) && Sized(kv, t.blockSize)
    ensures Raised(TrimBlock(t, key, kv, false)) == TrimFailure(t, key, false)
    ensures TrimBlock(t, key, kv, false).Ok? ==>
              var u := TrimBlock(t, key, kv, false).state;
              && |u.cpuFree| + SlotsFor(t, key) == |t.cpuFree| && u.lru == t.lru && u.writeThrough == t.writeThrough
              && u.residency == t.residency[key.block := OnCpu]
              && (t.writeThrough ==> u.hostSlots.Keys == t.hostSlots.Keys + {key})
  {
    hide PoolOk, AllSized, Lru.Valid, Mirror;
    if t.writeThrough { MirrorFails(t, key, kv); }
  }

  lemma SecondTrim<T>(t: Tier<T>, s: nat, blocks: seq<KV<T>>)
    requires Shaped(t) && AllSized(blocks, t.blockSize) && s in t.trimmed
    ensures Trim(t, s, blocks) == Ok(t)
  {
  }

  lemma SecondIngest<T>(t: Tier<T>, s: nat, blocks: seq<KV<T>>, tail: KV<T>)
    requires Shaped(t) && AllSized(blocks, t.blockSize) && |tail.k| == |tail.v| < t.blockSize && s in t.trimmed
    ensures Ingest(t, s, blocks, tail) == Ok(t)
  {
  }
}
