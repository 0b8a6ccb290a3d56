/**
 What a raise leaves behind. An operation that raises keeps whatever it did before: a block already taken out of the
 slot map, a host record already popped. Here is exactly which raises lose a block and which lose nothing, while one
 sequence uses the layer.
 */
module TierRaise {
  import opened SlotMap
  import opened TierModel
  import opened TierTransparency
  import opened TierFailure
  import opened TierOutcome
  import opened TierSafety
  import opened TierAccounts
  import opened TierSuccess

  /** The block is neither in the arena nor on the host any more. */
  ghost predicate Gone<T>(u: Tier<T>, p: Plain<T>, x: Key) {
    x in p && x !in u.lru.slot && x !in Backing(u)
  }

  ghost predicate Lost<T>(u: Tier<T>, p: Plain<T>, but: set<Key>) {
    exists x :: Gone(u, p, x) && x !in but
  }

  lemma GoneIsLost<T>(u: Tier<T>, p: Plain<T>, x: Key, but: set<Key>)
    requires Gone(u, p, x) && x !in but
    ensures Lost(u, p, but)
  {
  }

  /** The rows of `x` are in its arena slot or, if it has none, in its host slot. */
  ghost predicate Recoverable<T>(u: Tier<T>, rows: KV<T>, x: Key) {
    if x in u.lru.slot then u.lru.slot[x] < |u.gpu| && Within(rows, u.gpu[u.lru.slot[x]])
    else x in Backing(u) && Backing(u)[x] < |u.cpu| && Within(rows, u.cpu[Backing(u)[x]])
  }

  /** Every block outside `but` still reads back with the rows it had. */
  ghost predicate Intact<T>(u: Tier<T>, p: Plain<T>, but: set<Key>) {
    Shaped(u) && forall x :: x in p && x !in but ==> Recoverable(u, p[x], x)
  }

  lemma IntactNotLost<T>(u: Tier<T>, p: Plain<T>, but: set<Key>)
    requires Intact(u, p, but)
    ensures !Lost(u, p, but)
  {
    hide Shaped;
    forall x | x in p && x !in but ensures !Gone(u, p, x) { assert Recoverable(u, p[x], x); }
  }

  lemma StaysIntact<T>(u: Tier<T>, p: Plain<T>, q: Plain<T>, but: set<Key>)
    requires Represents(u, q) && forall x :: x in p && x !in but ==> x in q && q[x] == p[x]
    ensures Intact(u, p, but)
  {
    hide PoolOk, AllSized, Lru.Valid;
    forall x | x in p && x !in but ensures Recoverable(u, p[x], x) { assert x in q.Keys - {}; }
  }

  // ------------------------------------------------------------------ making room

  predicate LosesMakingRoom(e: Failure) { e == PoolFull || e == NoBackup }

  lemma SpillRaises<T>(t: Tier<T>, victim: Key, slot: nat)
    requires Shaped(t) && slot < |t.gpu| && Spill(t, victim, slot).Err? && LosesMakingRoom(Spill(t, victim, slot).error)
    ensures Spill(t, victim, slot).state == t && (t.writeThrough ==> victim !in t.hostSlots)
  {
    hide PoolOk, AllSized, Lru.Valid;
  }

  /** A raise while making room leaves the layer alone if there is no arena, and otherwise loses the victim. */
  lemma PlaceRaises<T>(t: Tier<T>, key: Key, protected: set<Key>, total: nat) returns (v: Key)
    requires AccountedTo(t, total) && Place(t, key, protected).NotPlaced?
    ensures var NotPlaced(e, u) := Place(t, key, protected);
            && (e == NoArena ==> u == t)
            && (LosesMakingRoom(e) ==> v in t.lru.slot && v != key && v !in u.lru.slot && v !in Backing(u))
  {
    hide PoolOk, AllSized, Lru.Valid, Add, Spill;
    v := key;
    AddValid(t.lru, key, protected);
    PlaceFails(t, key, protected);
    var NotPlaced(e, u) := Place(t, key, protected);
    if Add(t.lru, key, protected).Some? {
      var a := Add(t.lru, key, protected).value;
      v := a.evicted.value;
      AddMoved(t.lru, key, a);
      if LosesMakingRoom(e) { SpillRaises(t.(lru := a.lru), v, a.slot); }
      SpillFails(t.(lru := a.lru), v, a.slot);
    }
  }

  lemma RoomRaises<T>(t: Tier<T>, p: Plain<T>, key: Key)
    requires Accounted(t) && Represents(t, p) && Place(t, key, {}).NotPlaced? &&
             Place(t, key, {}).error != BadTransition
    ensures var NotPlaced(e, u) := Place(t, key, {});
            && (e == NoArena || LosesMakingRoom(e))
            && (LosesMakingRoom(e) ==> Lost(u, p, {key}))
            && (!LosesMakingRoom(e) ==> Intact(u, p, {key}))
  {
    hide PoolOk, AllSized, Lru.Valid, Place, ArenaHolds, HostHolds, Lost, Intact, AccountedTo;
    var v := PlaceRaises(t, key, {}, |t.cpu|);
    PlaceFails(t, key, {});
    var NotPlaced(e, u) := Place(t, key, {});
    if e == NoArena {
      StaysIntact(t, p, p, {key});
    } else {
      ResidentRows(t, p, v);
      GoneIsLost(u, p, v, {key});
    }
  }

  // ------------------------------------------------------------------ writes

  lemma PlacedIntact<T>(t: Tier<T>, p: Plain<T>, key: Key, kv: KV<T>)
    requires Represents(t, p) && Sized(kv, t.blockSize) && t.writeThrough && key !in t.hostSlots &&
             Place(t, key, {}).Placed?
    ensures var Placed(u, slot) := Place(t, key, {});
            Shaped(u) && slot < |u.gpu| && u.blockSize == t.blockSize &&
                Intact(Written(u, slot, kv, key.block), p, {key})
  {
    hide PoolOk, AllSized, Lru.Valid, Place, ArenaHolds, HostHolds, Recoverable;
    LessToKeep(t, p, key);
    PlaceShaped(t, key, {});
    PlaceStored(t, p, key, {});
    PlaceKeepsMirror(t, key, {});
    var Placed(u, slot) := Place(t, key, {});
    WrittenStored(u, p, key, kv, kv);
    StaysIntact(Written(u, slot, kv, key.block), p, p[key := kv], {key});
  }

  lemma FillRaises<T>(t: Tier<T>, p: Plain<T>, key: Key, kv: KV<T>)
    requires Accounted(t) && Represents(t, p) && Sized(kv, t.blockSize) && !Refused(Fill(t, key, kv)) &&
             Fill(t, key, kv).Err?
    ensures var Err(e, u) := Fill(t, key, kv);
            if LosesMakingRoom(e) && !(t.writeThrough && e == PoolFull) then Lost(u, p, {key}) else Intact(u, p, {key})
  {
    hide PoolOk, AllSized, Lru.Valid, Place, ArenaHolds, HostHolds, Lost, Intact, Mirror, AccountedTo;
    PlaceFails(t, key, {});
    PlaceShaped(t, key, {});
    if Place(t, key, {}).NotPlaced? {
      RoomRaises(t, p, key);
    } else {
      var Placed(u, slot) := Place(t, key, {});
      var w := Written(u, slot, kv, key.block);
      MirrorFails(w, key, kv);
      MirrorRaises(w, key, kv);
      PlacedIntact(t, p, key, kv);
    }
  }

  lemma LiveRaises<T>(t: Tier<T>, p: Plain<T>, key: Key, kv: KV<T>)
    requires Accounted(t) && Represents(t, p) && Sized(kv, t.blockSize)
    requires !Refused(WriteLive(t, key, kv)) && WriteLive(t, key, kv).Err?
    ensures var Err(e, u) := WriteLive(t, key, kv);
            && (LosesMakingRoom(e) ==> Lost(u, p, {key})) && (!LosesMakingRoom(e) ==> Intact(u, p, {key}))
            && (t.writeThrough ==> e != PoolFull)
  {
    hide PoolOk, AllSized, Lru.Valid, Place, ArenaHolds, HostHolds, Lost, Intact;
    PlaceFails(t, key, {});
    RoomRaises(t, p, key);
  }

  lemma AppendRaises<T>(t: Tier<T>, p: Plain<T>, key: Key, offset: nat, kRow: T, vRow: T)
    requires Accounted(t) && Represents(t, p) && offset < t.blockSize && CanAppend(t, p, key, offset)
    requires !Refused(AppendAt(t, key, offset, kRow, vRow)) && AppendAt(t, key, offset, kRow, vRow).Err?
    ensures var Err(e, u) := AppendAt(t, key, offset, kRow, vRow);
            if LosesMakingRoom(e) && !(t.writeThrough && e == PoolFull) then Lost(u, p, {key}) else Intact(u, p, {key})
  {
    hide PoolOk, Lru.Valid, Place, ArenaHolds, HostHolds, Lost, Intact, WithRow, Grown;
    PlaceFails(t, key, {});
    PlaceShaped(t, key, {});
    if Place(t, key, {}).NotPlaced? {
      RoomRaises(t, p, key);
    } else {
      LessToKeep(t, p, key);
      PlaceStored(t, p, key, {});
      var Placed(u, slot) := Place(t, key, {});
      assert Sized(u.gpu[slot], t.blockSize);
      if offset > 0 { ResidentRows(t, p, key); }
      RowAdded(p, key, kRow, vRow, offset, u.gpu[slot]);
      var kv, want := WithRow(u.gpu[slot], offset, kRow, vRow), Grown(p, key, kRow, vRow, offset);
      WrittenStored(u, p, key, kv, want);
      StaysIntact(Written(u, slot, kv, key.block), p, p[key := want], {key});
    }
  }

  // ------------------------------------------------------------------ reloads

  /** Asking for something never stored loses nothing; a raise further on loses the victim or the popped block. */
  predicate LosesReloading(writeThrough: bool, e: Failure) {
    LosesMakingRoom(e) || (e == NoArena && !writeThrough)
  }

  /** A reload that is not refused raises exactly as making room does, once the record is popped. */
  lemma ReloadRaisesPlacing<T>(t: Tier<T>, key: Key)
    requires Shaped(t) && key in Backing(t) && !Refused(EnsureOne(t, key)) && EnsureOne(t, key).Err?
    ensures var t0 := t.(cpuSlots := t.cpuSlots - {key}); var protected := ProtectedKeys(t, key.seqId);
            && key !in t.lru.slot && Shaped(t0) && Place(t0, key, protected).NotPlaced?
            && EnsureOne(t, key) == Err(Place(t0, key, protected).error, Place(t0, key, protected).state)
  {
    hide PoolOk, AllSized, Lru.Valid, Place;
    TakenShaped(t, key);
  }

  lemma ReloadRaises<T>(t: Tier<T>, p: Plain<T>, key: Key)
    requires Accounted(t) && Represents(t, p) && !Refused(EnsureOne(t, key)) && EnsureOne(t, key).Err?
    ensures var Err(e, u) := EnsureOne(t, key);
            if LosesReloading(t.writeThrough, e) then Lost(u, p, {}) else Intact(u, p, {})
  {
    hide PoolOk, AllSized, Lru.Valid, Place, ArenaHolds, HostHolds, Lost, Intact, AccountedTo;
    if key !in Backing(t) {
      assert EnsureOne(t, key) == Err(NotFound, t);
      StaysIntact(t, p, p, {});
    } else {
      hide EnsureOne;
      KnownKeys(t, p);
      var t0, protected := t.(cpuSlots := t.cpuSlots - {key}), ProtectedKeys(t, key.seqId);
      ReloadRaisesPlacing(t, key);
      var under := TakenAccounted(t, key);
      PlaceFails(t0, key, protected);
      var v := PlaceRaises(t0, key, protected, under);
      var NotPlaced(e, u) := Place(t0, key, protected);
      if LosesMakingRoom(e) {
        ResidentRows(t, p, v);
        GoneIsLost(u, p, v, {});
      } else if t.writeThrough {
        assert t0 == t;
        StaysIntact(t, p, p, {});
      } else {
        GoneIsLost(u, p, key, {});
      }
    }
  }

  lemma {:induction false} RequestRaises<T>(t: Tier<T>, p: Plain<T>, s: nat, keys: seq<Key>)
    requires Accounted(t) && Tracks(t, s) && Represents(t, p) && forall k :: k in keys ==> k.seqId == s
    requires EnsureAll(t, keys).Err?
    ensures var Err(e, u) := EnsureAll(t, keys);
            if LosesReloading(t.writeThrough, e) then Lost(u, p, {}) else Intact(u, p, {})
    decreases |keys|
  {
    hide PoolOk, Lru.Valid, AllSized, InStep, ArenaHolds, HostHolds, EnsureOne, Lost, Intact;
    assert keys[0] in keys && forall k :: k in keys[1..] ==> k in keys;
    if EnsureOne(t, keys[0]).Ok? {
      EnsureOneAccounted(t, keys[0]);
      EnsureOneTracks(t, s, keys[0]);
      EnsureOneStored(t, p, keys[0]);
      RequestRaises(EnsureOne(t, keys[0]).state, p, s, keys[1..]);
    } else {
      ReloadRefusedIff(t, keys[0]);
      RowsReadRight(t, s, keys[0], {});
      ReloadRaises(t, p, keys[0]);
    }
  }

  lemma {:induction false} PrefetchRaises<T>(t: Tier<T>, p: Plain<T>, s: nat, keys: seq<Key>)
    requires Accounted(t) && Tracks(t, s) && Represents(t, p) && forall k :: k in keys ==> k.seqId == s
    requires Prefetch(t, keys).Err?
    ensures var Err(e, u) := Prefetch(t, keys);
            if LosesReloading(t.writeThrough, e) then Lost(u, p, {}) else Intact(u, p, {})
    decreases |keys|
  {
    hide PoolOk, Lru.Valid, AllSized, InStep, ArenaHolds, HostHolds, EnsureOne, Lost, Intact;
    assert keys[0] in keys && forall k :: k in keys[1..] ==> k in keys;
    if EnsureOne(t, keys[0]).Ok? {
      var u := EnsureOne(t, keys[0]).state;
      EnsureOneAccounted(t, keys[0]);
      EnsureOneTracks(t, s, keys[0]);
      EnsureOneStored(t, p, keys[0]);
      DemotedSame(u, p, s, keys[0], []);
      PrefetchRaises(Demoted(u, keys[0]), p, s, keys[1..]);
    } else {
      ReloadRefusedIff(t, keys[0]);
      RowsReadRight(t, s, keys[0], {});
      ReloadRaises(t, p, keys[0]);
    }
  }

  // ------------------------------------------------------------------ prompt hand-over

  lemma KeptRaises<T>(t: Tier<T>, p: Plain<T>, key: Key, kv: KV<T>)
    requires Represents(t, p) && key !in p && Sized(kv, t.blockSize) && t.lru.free != []
    requires TrimBlock(t, key, kv, true).Err?
    ensures TrimBlock(t, key, kv, true).error == PoolFull && Intact(TrimBlock(t, key, kv, true).state, p, {})
  {
    hide Add, PoolOk, AllSized, ArenaHolds, HostHolds, Lru.Valid, Mirror;
    FreshNowhere(t, p, key);
    HasSlots(t.lru);
    KeptFails(t, key, kv);
    LessToKeep(t, p, key);
    AddValid(t.lru, key, {});
    var a := Add(t.lru, key, {}).value;
    AddStored(t, p, key, a);
    WrittenStored(t.(lru := a.lru), p, key, kv, kv);
    var w := Written(t.(lru := a.lru), a.slot, kv, key.block);
    StaysIntact(w, p, p[key := kv], {});
    MirrorRaises(w, key, kv);
  }

  lemma MirrorRaises<T>(t: Tier<T>, key: Key, kv: KV<T>)
    requires Shaped(t) && t.writeThrough
    ensures Mirror(t, key, kv).Err? ==> Mirror(t, key, kv) == Err(PoolFull, t)
  {
  }

  lemma SentRaises<T>(t: Tier<T>, p: Plain<T>, s: nat, key: Key, kv: KV<T>)
    requires Tracks(t, s) && Represents(t, p) && key.seqId == s && key !in p && Sized(kv, t.blockSize)
    requires TrimBlock(t, key, kv, false).Err?
    ensures TrimBlock(t, key, kv, false).error == PoolFull && Intact(TrimBlock(t, key, kv, false).state, p, {})
  {
    hide PoolOk, AllSized, ArenaHolds, HostHolds, Lru.Valid, Mirror, InStep;
    FreshNowhere(t, p, key);
    FreshReadsOnGpu(t, s, key);
    StaysIntact(t, p, p, {});
    if t.writeThrough {
      MirrorRaises(t, key, kv);
      if Mirror(t, key, kv).Ok? { MirrorKeys(t, key, kv); }
    }
  }

  /** Blocks among `b..n` that stay in the arena. */
  function Kept(n: nat, keepFrom: nat, b: nat): nat {
    if keepFrom >= n then 0 else if b < keepFrom then n - keepFrom else if b < n then n - b else 0
  }

  /** A hand-over that raises has found the pool full, and keeps everything stored before. */
  lemma {:induction false} TrimFromRaises<T>(t: Tier<T>, p: Plain<T>, s: nat, blocks: seq<KV<T>>, keepFrom: nat, b: nat)
    requires Tracks(t, s) && Represents(t, p) && AllSized(blocks, t.blockSize) && b <= |blocks| && keepFrom <= |blocks|
    requires forall i :: b <= i < |blocks| ==> Key(s, i) !in p
    requires |t.lru.free| >= Kept(|blocks|, keepFrom, b) && TrimFrom(t, s, blocks, keepFrom, b).Err?
    ensures var r := TrimFrom(t, s, blocks, keepFrom, b); r.error == PoolFull && Intact(r.state, p, {})
    decreases |blocks| - b
  {
    hide PoolOk, Lru.Valid, InStep, TrimBlock, ArenaHolds, HostHolds, Recoverable;
    var key, kept := Key(s, b), b >= keepFrom;
    FreshNowhere(t, p, key);
    if TrimBlock(t, key, blocks[b], kept).Err? {
      if kept { KeptRaises(t, p, key, blocks[b]); } else { SentRaises(t, p, s, key, blocks[b]); }
    } else {
      var u := TrimBlock(t, key, blocks[b], kept).state;
      TrimBlockShaped(t, key, blocks[b], kept);
      TrimBlockStored(t, p, key, blocks[b], kept);
      if kept {
        KeptTracks(t, s, key, blocks[b]);
        KeptBooks(t, key, blocks[b]);
      } else {
        SentTracks(t, s, key, blocks[b]);
        SentFails(t, key, blocks[b]);
      }
      TrimFromRaises(u, p[key := blocks[b]], s, blocks, keepFrom, b + 1);
    }
  }

  lemma TrimRaises<T>(t: Tier<T>, p: Plain<T>, s: nat, blocks: seq<KV<T>>)
    requires Tracks(t, s) && Represents(t, p) && AllSized(blocks, t.blockSize) && Trim(t, s, blocks).Err?
    requires s !in t.trimmed ==> t.lru.slot == map[] && Backing(t) == map[]
    ensures Trim(t, s, blocks).error == PoolFull && Intact(Trim(t, s, blocks).state, p, {})
  {
    hide PoolOk, Lru.Valid, InStep, TrimFrom, ArenaHolds, HostHolds, AllSized;
    UnusedIsEmpty(t, p);
    SlotsHeld(t.lru);
    assert t.lru.slot.Keys == {};
    TrimFromRaises(t.(trimmed := t.trimmed + {s}), p, s, blocks, KeepFrom(|blocks|, t.lru.capacity), 0);
  }

  lemma IngestRaises<T>(t: Tier<T>, p: Plain<T>, s: nat, blocks: seq<KV<T>>, tail: KV<T>)
    requires Tracks(t, s) && Represents(t, p) && AllSized(blocks, t.blockSize) && |tail.k| == |tail.v| < t.blockSize
    requires Ingest(t, s, blocks, tail).Err?
    requires s !in t.trimmed ==> t.lru.slot == map[] && Backing(t) == map[]
    ensures var r := Ingest(t, s, blocks, tail); (r.error == PoolFull || r.error == NoArena) && Intact(r.state, p, {})
  {
    hide PoolOk, Lru.Valid, InStep, Trim, ArenaHolds, HostHolds, AllSized, Place, Recoverable;
    UnusedIsEmpty(t, p);
    if Trim(t, s, blocks).Err? {
      TrimRaises(t, p, s, blocks);
    } else {
      TrimOkIff(t, s, blocks);
      TrimShaped(t, s, blocks);
      var u := Trim(t, s, blocks).state;
      PlaceFails(u, Key(s, |blocks|), {});
      assert u.lru.capacity == 0 ==> u.lru.order == [] by { SlotsHeld(u.lru); }
      PlaceNoArena(u, Key(s, |blocks|));
    }
  }

  lemma PlaceNoArena<T>(t: Tier<T>, key: Key)
    requires Shaped(t)
    ensures Place(t, key, {}).NotPlaced? && Place(t, key, {}).error == NoArena ==> Place(t, key, {}).state == t
  {
    hide PoolOk, AllSized, Lru.Valid, Add;
  }

  // ------------------------------------------------------------------ any operation

  /** The block an operation writes, whose contents may be the old or the new ones after a raise. */
  ghost function BlockWritten<T>(t: Tier<T>, op: Op<T>): set<Key>
    requires t.blockSize > 0
  {
    match op
    case OpFill(key, _) => {key}
    case OpLive(key, _) => {key}
    case OpAppend(seqId, pos, _, _) => {Key(seqId, pos / t.blockSize)}
    case _ => {}
  }

  /** Which raises lose a block. */
  predicate RaiseLoses<T>(t: Tier<T>, op: Op<T>, e: Failure) {
    match op
    case OpTrim(_, _) => false
    case OpIngest(_, _, _) => false
    case OpEnsure(_, _, _) => LosesReloading(t.writeThrough, e)
    case OpPrefetch(_, _) => LosesReloading(t.writeThrough, e)
    case _ => e == NoBackup || (e == PoolFull && !t.writeThrough)
  }

  /**
   Exactly which raises lose a block: making room for it failed under write-back for want of a host slot or under
   write-through for want of a mirror, or a write-back reload found no arena after popping the block's record. After
   every other raise all blocks but the one being written read back as before.
   */
  lemma RaiseLosesIff<T>(t: Tier<T>, p: Plain<T>, s: nat, op: Op<T>)
    requires Accounted(t) && Tracks(t, s) && Represents(t, p) && Concerns(op, s) && WellShaped(t, op)
    requires HandOverFirst(t, s, op) && Disciplined(t, p, op) && Step(t, op).Err?
    ensures var Err(e, u) := Step(t, op);
            && (RaiseLoses(t, op, e) ==> Lost(u, p, BlockWritten(t, op)))
            && (!RaiseLoses(t, op, e) ==> Intact(u, p, BlockWritten(t, op)))
  {
    hide PoolOk, ArenaHolds, HostHolds, Lru.Valid, AllSized, InStep, AccountedTo, Lost, Intact, CanAppend;
    hide Fill, WriteLive, AppendAt, EnsureAll, Prefetch, Trim, Ingest, Release;
    OneSequenceNeverRefused(t, s, op);
    match op
    case OpFill(key, kv) => FillRaises(t, p, key, kv);
    case OpLive(key, kv) => LiveRaises(t, p, key, kv);
    case OpAppend(_, pos, kRow, vRow) => AppendRaises(t, p, Key(s, pos / t.blockSize), pos % t.blockSize, kRow, vRow);
    case OpEnsure(_, ids, keep) =>
      TouchedRaises(t, p, s, ids, keep);
    case OpPrefetch(_, ids) => PrefetchRaises(t, p, s, KeysOf(s, ids));
    case OpTrim(_, blocks) => TrimRaises(t, p, s, blocks);
    case OpIngest(_, blocks, tail) => IngestRaises(t, p, s, blocks, tail);
    case _ =>
  }

  lemma TouchedRaises<T>(t: Tier<T>, p: Plain<T>, s: nat, ids: seq<nat>, keep: seq<nat>)
    requires Accounted(t) && Tracks(t, s) && Represents(t, p) && EnsureResident(t, s, ids, keep).Err?
    ensures var Err(e, u) := EnsureResident(t, s, ids, keep);
            if LosesReloading(t.writeThrough, e) then Lost(u, p, {}) else Intact(u, p, {})
  {
    hide PoolOk, ArenaHolds, HostHolds, Lru.Valid, AllSized, InStep, Lost, Intact, EnsureAll;
    RecencyAccounted(t, KeysOf(s, ids), KeysOf(s, keep));
    TouchedShaped(t, KeysOf(s, ids), KeysOf(s, keep));
    RequestRaises(Touched(t, KeysOf(s, ids), KeysOf(s, keep)), p, s, KeysOf(s, ids));
  }
}
