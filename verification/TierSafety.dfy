/**
 When the residency table refuses. The table is indexed by block alone: with one sequence in the cache it reads as
 the tiers are and never refuses a transition, with two it does.
 */
module TierSafety {
  import opened Lists
  import opened SlotMap
  import opened TierModel
  import opened TierTransparency
  import opened TierFailure
  import opened TierOutcome

  // ------------------------------------------------------------------ residency

  /**
   Only sequence `s` is cached, and a block outside `but` reads OnCpu exactly when its only copy is on the host.
   `held` and `copied` are the keys in the arena and on the host.
   */
  ghost predicate InStep(held: set<Key>, copied: set<Key>, residency: map<nat, Residency>, s: nat, but: set<nat>) {
    && (forall x :: x in held ==> x.seqId == s)
    && (forall x :: x in copied ==> x.seqId == s)
    && (forall b :: b !in but ==>
          StateOf(residency, b) == if Key(s, b) in copied && Key(s, b) !in held then OnCpu else OnGpu)
  }

  ghost predicate TracksBut<T>(t: Tier<T>, s: nat, but: set<nat>) {
    Shaped(t) && InStep(t.lru.slot.Keys, Backing(t).Keys, t.residency, s, but)
  }

  ghost predicate Tracks<T>(t: Tier<T>, s: nat) {
    TracksBut(t, s, {})
  }

  lemma InStepLess(held: set<Key>, copied: set<Key>, residency: map<nat, Residency>, s: nat, key: Key)
    requires InStep(held, copied, residency, s, {}) && key.seqId == s
    ensures InStep(held + {key}, copied, residency, s, {key.block})
    ensures InStep(held, copied, residency, s, {key.block})
    ensures InStep(held, copied - {key}, residency, s, {key.block})
  {
    forall b | b != key.block ensures Key(s, b) != key {}
  }

  lemma InStepEvicted(held: set<Key>, copied: set<Key>, residency: map<nat, Residency>, s: nat, key: Key, victim: Key)
    requires InStep(held, copied, residency, s, {key.block}) && key.seqId == s && victim in held && victim != key
    ensures victim.block != key.block && StateOf(residency, victim.block) == OnGpu
    ensures InStep(held - {victim} + {key}, copied + {victim}, residency[victim.block := OnCpu], s, {key.block})
  {
    assert victim == Key(s, victim.block) && key == Key(s, key.block);
    forall b | b != key.block && b != victim.block ensures Key(s, b) != key && Key(s, b) != victim {}
  }

  lemma InStepWritten(held: set<Key>, copied: set<Key>, residency: map<nat, Residency>, s: nat, key: Key)
    requires InStep(held, copied, residency, s, {key.block}) && key in held && key.seqId == s
    ensures InStep(held, copied, residency[key.block := OnGpu], s, {})
    ensures InStep(held, copied + {key}, residency[key.block := OnGpu], s, {})
  {
    assert key == Key(s, key.block);
    forall b | b != key.block ensures Key(s, b) != key {}
  }

  lemma InStepCopied(held: set<Key>, copied: set<Key>, residency: map<nat, Residency>, s: nat, key: Key)
    requires InStep(held, copied, residency, s, {}) && key !in held && key.seqId == s
    ensures InStep(held, copied + {key}, residency[key.block := OnCpu], s, {})
  {
    assert key == Key(s, key.block);
    forall b | b != key.block ensures Key(s, b) != key {}
  }

  lemma SpillTracks<T>(t: Tier<T>, victim: Key, slot: nat)
    requires Shaped(t) && slot < |t.gpu| && StateOf(t.residency, victim.block) == OnGpu
    ensures Spill(t, victim, slot).Ok? ==>
              var u := Spill(t, victim, slot).state;
              && u.residency == t.residency[victim.block := OnCpu] && u.lru == t.lru
              && Backing(u).Keys == Backing(t).Keys + {victim}
  {
    hide PoolOk, Lru.Valid, AllSized;
  }

  /** Room can always be made for a block of the one cached sequence. */
  lemma PlaceTracks<T>(t: Tier<T>, s: nat, key: Key, protected: set<Key>)
    requires TracksBut(t, s, {key.block}) && key.seqId == s
    ensures Place(t, key, protected).Placed? ==>
              var u := Place(t, key, protected).state;
              && TracksBut(u, s, {key.block}) && key in u.lru.slot
              && StateOf(u.residency, key.block) == StateOf(t.residency, key.block)
  {
    hide PoolOk, Lru.Valid, AllSized, Spill, InStep;
    AddValid(t.lru, key, protected);
    if Add(t.lru, key, protected).Some? {
      var a := Add(t.lru, key, protected).value;
      var held, copied := t.lru.slot.Keys, Backing(t).Keys;
      if Place(t, key, protected).Placed? { PlaceShaped(t, key, protected); }
      match a.evicted
      case None =>
        assert a.lru.slot.Keys == held + {key};
        InStepMore(held, copied, t.residency, s, key);
      case Some(victim) =>
        assert a.lru.slot.Keys == held - {victim} + {key};
        InStepEvicted(held, copied, t.residency, s, key, victim);
        SpillTracks(t.(lru := a.lru), victim, a.slot);
    }
  }

  lemma InStepMore(held: set<Key>, copied: set<Key>, residency: map<nat, Residency>, s: nat, key: Key)
    requires InStep(held, copied, residency, s, {key.block}) && key.seqId == s
    ensures InStep(held + {key}, copied, residency, s, {key.block})
  {
    forall b | b != key.block ensures Key(s, b) != key {}
  }

  lemma WrittenTracks<T>(u: Tier<T>, s: nat, kv: KV<T>, key: Key)
    requires TracksBut(u, s, {key.block}) && key.seqId == s && key in u.lru.slot
    requires u.lru.slot[key] < |u.gpu| && Sized(kv, u.blockSize)
    ensures Tracks(Written(u, u.lru.slot[key], kv, key.block), s)
  {
    hide PoolOk, Lru.Valid, InStep;
    InStepWritten(u.lru.slot.Keys, Backing(u).Keys, u.residency, s, key);
  }

  lemma MirrorTracks<T>(t: Tier<T>, s: nat, key: Key, kv: KV<T>)
    requires Tracks(t, s) && t.writeThrough && key.seqId == s && key in t.lru.slot && Sized(kv, t.blockSize)
    ensures Mirror(t, key, kv).Ok? ==> Tracks(Mirror(t, key, kv).state, s)
  {
    hide PoolOk, Lru.Valid, AllSized, InStep;
    if Mirror(t, key, kv).Ok? {
      MirrorShaped(t, key, kv);
      var u := Mirror(t, key, kv).state;
      assert Backing(u).Keys == Backing(t).Keys + {key};
      InStepBacked(t.lru.slot.Keys, Backing(t).Keys, t.residency, s, key);
    }
  }

  lemma InStepBacked(held: set<Key>, copied: set<Key>, residency: map<nat, Residency>, s: nat, key: Key)
    requires InStep(held, copied, residency, s, {}) && key in held
    ensures InStep(held, copied + {key}, residency, s, {})
  {
    forall b | Key(s, b) == key ensures Key(s, b) in held {}
  }

  lemma TracksLess<T>(t: Tier<T>, s: nat, key: Key)
    requires Tracks(t, s) && key.seqId == s
    ensures TracksBut(t, s, {key.block})
  {
    hide PoolOk, Lru.Valid;
    InStepLess(t.lru.slot.Keys, Backing(t).Keys, t.residency, s, key);
  }

  /** A full or live block of the one cached sequence is never refused. */
  lemma FillTracks<T>(t: Tier<T>, s: nat, key: Key, kv: KV<T>)
    requires Tracks(t, s) && key.seqId == s && Sized(kv, t.blockSize)
    ensures Fill(t, key, kv).Ok? ==> Tracks(Fill(t, key, kv).state, s)
    ensures WriteLive(t, key, kv).Ok? ==> Tracks(WriteLive(t, key, kv).state, s)
  {
    hide PoolOk, Lru.Valid, AllSized, InStep, Place, Mirror;
    TracksLess(t, s, key);
    PlaceTracks(t, s, key, {});
    if Place(t, key, {}).Placed? {
      PlaceShaped(t, key, {});
      var u := Place(t, key, {}).state;
      WrittenTracks(u, s, kv, key);
      if t.writeThrough { MirrorTracks(Written(u, u.lru.slot[key], kv, key.block), s, key, kv); }
    }
  }

  lemma AppendTracks<T>(t: Tier<T>, s: nat, key: Key, offset: nat, kRow: T, vRow: T)
    requires Tracks(t, s) && key.seqId == s && offset < t.blockSize
    ensures AppendAt(t, key, offset, kRow, vRow).Ok? ==> Tracks(AppendAt(t, key, offset, kRow, vRow).state, s)
  {
    hide PoolOk, Lru.Valid, InStep, Place, Mirror, WithRow;
    TracksLess(t, s, key);
    PlaceTracks(t, s, key, {});
    if Place(t, key, {}).Placed? {
      PlaceShaped(t, key, {});
      var Placed(u, slot) := Place(t, key, {});
      assert Sized(u.gpu[slot], u.blockSize);
      var kv := WithRow(u.gpu[slot], offset, kRow, vRow);
      WrittenTracks(u, s, kv, key);
      if t.writeThrough { MirrorTracks(Written(u, slot, kv, key.block), s, key, kv); }
    }
  }

  lemma StageTracks<T>(t: Tier<T>, s: nat, key: Key, rows: KV<T>)
    requires Tracks(t, s) && key.seqId == s && |rows.k| == |rows.v| <= t.blockSize
    ensures Stage(t, key, rows).Ok? ==> Tracks(Stage(t, key, rows).state, s)
  {
    hide PoolOk, Lru.Valid, InStep, Place, Over;
    TracksLess(t, s, key);
    PlaceTracks(t, s, key, {});
    if Place(t, key, {}).Placed? {
      PlaceShaped(t, key, {});
      var Placed(u, slot) := Place(t, key, {});
      assert Sized(u.gpu[slot], u.blockSize);
      WrittenTracks(u, s, Over(rows, u.gpu[slot]), key);
    }
  }

  /** A reload is never refused either: a block of the one cached sequence that left the arena reads OnCpu. */
  lemma EnsureOneTracks<T>(t: Tier<T>, s: nat, key: Key)
    requires Tracks(t, s) && key.seqId == s
    ensures EnsureOne(t, key).Ok? ==> Tracks(EnsureOne(t, key).state, s)
  {
    hide PoolOk, Lru.Valid, AllSized, InStep, Place;
    if EnsureOne(t, key).Ok? { EnsureOneShaped(t, key); }
    if key !in t.lru.slot && key in Backing(t) {
      var t0, protected := t.(cpuSlots := t.cpuSlots - {key}), ProtectedKeys(t, key.seqId);
      TakenTracks(t, s, key);
      PlaceTracks(t0, s, key, protected);
      if Place(t0, key, protected).Placed? {
        PlaceShaped(t0, key, protected);
        var u := Place(t0, key, protected).state;
        InStepWritten(u.lru.slot.Keys, Backing(u).Keys, u.residency, s, key);
      }
    }
  }

  lemma TakenTracks<T>(t: Tier<T>, s: nat, key: Key)
    requires Tracks(t, s) && key.seqId == s && key !in t.lru.slot && key in Backing(t)
    ensures TracksBut(t.(cpuSlots := t.cpuSlots - {key}), s, {key.block})
    ensures StateOf(t.residency, key.block) == OnCpu
  {
    hide PoolOk, Lru.Valid, AllSized;
    assert key == Key(s, key.block);
    TakenShaped(t, key);
    var t0 := t.(cpuSlots := t.cpuSlots - {key});
    assert Backing(t0).Keys == if t.writeThrough then Backing(t).Keys else Backing(t).Keys - {key};
    InStepLess(t.lru.slot.Keys, Backing(t).Keys, t.residency, s, key);
  }

  lemma {:induction false} EnsureAllTracks<T>(t: Tier<T>, s: nat, keys: seq<Key>)
    requires Tracks(t, s) && forall k :: k in keys ==> k.seqId == s
    ensures EnsureAll(t, keys).Ok? ==> Tracks(EnsureAll(t, keys).state, s)
    decreases |keys|
  {
    hide PoolOk, Lru.Valid, AllSized, InStep, EnsureOne;
    if keys != [] {
      assert keys[0] in keys && forall k :: k in keys[1..] ==> k in keys;
      EnsureOneTracks(t, s, keys[0]);
      if EnsureOne(t, keys[0]).Ok? { EnsureAllTracks(EnsureOne(t, keys[0]).state, s, keys[1..]); }
    }
  }

  lemma {:induction false} PrefetchTracks<T>(t: Tier<T>, s: nat, keys: seq<Key>)
    requires Tracks(t, s) && forall k :: k in keys ==> k.seqId == s
    ensures Prefetch(t, keys).Ok? ==> Tracks(Prefetch(t, keys).state, s)
    decreases |keys|
  {
    hide PoolOk, Lru.Valid, AllSized, InStep, EnsureOne;
    if keys != [] {
      assert keys[0] in keys && forall k :: k in keys[1..] ==> k in keys;
      EnsureOneTracks(t, s, keys[0]);
      if EnsureOne(t, keys[0]).Ok? {
        var u := EnsureOne(t, keys[0]).state;
        DemotedShaped(u, keys[0]);
        PrefetchTracks(Demoted(u, keys[0]), s, keys[1..]);
      }
    }
  }

  ghost predicate TrimmedRight<T>(t: Tier<T>, s: nat, key: Key, r: Outcome<T>) {
    r.Ok? ==>
      && Tracks(r.state, s)
      && r.state.lru.slot.Keys + Backing(r.state).Keys <= t.lru.slot.Keys + Backing(t).Keys + {key}
  }

  lemma KeptTracks<T>(t: Tier<T>, s: nat, key: Key, kv: KV<T>)
    requires Tracks(t, s) && key.seqId == s && Sized(kv, t.blockSize)
    ensures TrimmedRight(t, s, key, TrimBlock(t, key, kv, true))
  {
    hide PoolOk, Lru.Valid, AllSized, InStep, Add;
    AddValid(t.lru, key, {});
    if Add(t.lru, key, {}).Some? {
      var a := Add(t.lru, key, {}).value;
      if a.evicted.None? {
        var u := t.(lru := a.lru);
        assert u.lru.slot.Keys == t.lru.slot.Keys + {key};
        InStepLess(t.lru.slot.Keys, Backing(t).Keys, t.residency, s, key);
        WrittenTracks(u, s, kv, key);
        var w := Written(u, a.slot, kv, key.block);
        if t.writeThrough {
          MirrorTracks(w, s, key, kv);
          if Mirror(w, key, kv).Ok? { MirrorKeys(w, key, kv); }
        }
      }
    }
  }

  lemma MirrorKeys<T>(t: Tier<T>, key: Key, kv: KV<T>)
    requires Shaped(t) && t.writeThrough && Mirror(t, key, kv).Ok?
    ensures Mirror(t, key, kv).state.lru == t.lru && Mirror(t, key, kv).state.residency == t.residency
    ensures Backing(Mirror(t, key, kv).state).Keys == Backing(t).Keys + {key}
  {
    hide PoolOk, Lru.Valid, AllSized;
  }

  lemma SentTracks<T>(t: Tier<T>, s: nat, key: Key, kv: KV<T>)
    requires Tracks(t, s) && key.seqId == s && Sized(kv, t.blockSize) && key !in t.lru.slot && key !in Backing(t)
    ensures TrimmedRight(t, s, key, TrimBlock(t, key, kv, false))
  {
    hide PoolOk, Lru.Valid, AllSized, InStep, Mirror;
    var r := TrimBlock(t, key, kv, false);
    if r.Ok? { TrimBlockShaped(t, key, kv, false); }
    FreshReadsOnGpu(t, s, key);
    InStepCopied(t.lru.slot.Keys, Backing(t).Keys, t.residency, s, key);
    if t.writeThrough && Mirror(t, key, kv).Ok? { MirrorKeys(t, key, kv); }
    if r.Ok? {
      assert Backing(r.state).Keys == Backing(t).Keys + {key};
    }
  }

  lemma FreshReadsOnGpu<T>(t: Tier<T>, s: nat, key: Key)
    requires Tracks(t, s) && key.seqId == s && key !in Backing(t)
    ensures StateOf(t.residency, key.block) == OnGpu
  {
    hide PoolOk, Lru.Valid, AllSized;
    assert key == Key(s, key.block);
  }

  lemma {:induction false} TrimFromTracks<T>(t: Tier<T>, s: nat, blocks: seq<KV<T>>, keepFrom: nat, b: nat)
    requires Tracks(t, s) && AllSized(blocks, t.blockSize) && b <= |blocks|
    requires forall i :: b <= i < |blocks| ==> Key(s, i) !in t.lru.slot.Keys + Backing(t).Keys
    ensures TrimFrom(t, s, blocks, keepFrom, b).Ok? ==> Tracks(TrimFrom(t, s, blocks, keepFrom, b).state, s)
    decreases |blocks| - b
  {
    hide PoolOk, Lru.Valid, InStep, TrimBlock;
    if b < |blocks| {
      assert Key(s, b) !in t.lru.slot.Keys + Backing(t).Keys;
      if b >= keepFrom { KeptTracks(t, s, Key(s, b), blocks[b]); } else { SentTracks(t, s, Key(s, b), blocks[b]); }
      if TrimBlock(t, Key(s, b), blocks[b], b >= keepFrom).Ok? {
        TrimBlockShaped(t, Key(s, b), blocks[b], b >= keepFrom);
        TrimFromTracks(TrimBlock(t, Key(s, b), blocks[b], b >= keepFrom).state, s, blocks, keepFrom, b + 1);
      }
    }
  }

  lemma TrimTracks<T>(t: Tier<T>, s: nat, blocks: seq<KV<T>>)
    requires Tracks(t, s) && AllSized(blocks, t.blockSize)
    requires s !in t.trimmed ==> forall i :: 0 <= i < |blocks| ==> Key(s, i) !in t.lru.slot.Keys + Backing(t).Keys
    ensures Trim(t, s, blocks).Ok? ==> Tracks(Trim(t, s, blocks).state, s)
  {
    hide PoolOk, Lru.Valid, InStep, TrimFrom;
    if s !in t.trimmed {
      TrimFromTracks(t.(trimmed := t.trimmed + {s}), s, blocks, KeepFrom(|blocks|, t.lru.capacity), 0);
    }
  }

  /** Once the sequence is released the table is as new, ready for any next sequence. */
  lemma ReleaseTracks<T>(t: Tier<T>, s: nat, hostKeys: seq<Key>, next: nat)
    requires Tracks(t, s) && ListsCopies(hostKeys, Backing(t), s)
    ensures Tracks(Release(t, s, hostKeys), next)
    ensures Release(t, s, hostKeys).lru.slot == map[] && Backing(Release(t, s, hostKeys)) == map[]
  {
    hide PoolOk, Lru.Valid, FreeAll, AllSized;
    var gone, u := SeqKeys(t.lru.order, s), Release(t, s, hostKeys);
    ReleaseShaped(t, s, hostKeys);
    assert u.lru.slot == map[] && Backing(u) == map[];
    forall b ensures StateOf(u.residency, b) == OnGpu {
      if StateOf(t.residency, b) == OnCpu {
        assert Key(s, b) in hostKeys;
        assert b in Blocks(Elems(gone) + Elems(hostKeys));
      }
    }
  }

  ghost predicate Concerns<T>(op: Op<T>, s: nat) {
    match op
    case OpFill(key, _) => key.seqId == s
    case OpLive(key, _) => key.seqId == s
    case _ => op.seqId == s
  }

  /** The prompt hand-over comes before anything else of its sequence. */
  ghost predicate HandOverFirst<T>(t: Tier<T>, s: nat, op: Op<T>) {
    (op.OpTrim? || op.OpIngest?) && s !in t.trimmed ==> t.lru.slot == map[] && Backing(t) == map[]
  }

  lemma IngestTracks<T>(t: Tier<T>, s: nat, blocks: seq<KV<T>>, tail: KV<T>)
    requires Tracks(t, s) && AllSized(blocks, t.blockSize) && |tail.k| == |tail.v| < t.blockSize
    requires s !in t.trimmed ==> t.lru.slot == map[] && Backing(t) == map[]
    ensures Ingest(t, s, blocks, tail).Ok? ==> Tracks(Ingest(t, s, blocks, tail).state, s)
  {
    hide PoolOk, Lru.Valid, AllSized, InStep, Trim, Stage;
    if s !in t.trimmed {
      TrimTracks(t, s, blocks);
      if Trim(t, s, blocks).Ok? {
        TrimShaped(t, s, blocks);
        if |tail.k| > 0 { StageTracks(Trim(t, s, blocks).state, s, Key(s, |blocks|), tail); }
      }
    }
  }

  lemma StepTracks<T>(t: Tier<T>, s: nat, op: Op<T>)
    requires Tracks(t, s) && Concerns(op, s) && WellShaped(t, op) && HandOverFirst(t, s, op)
    ensures Step(t, op).Ok? ==> Tracks(Step(t, op).state, s)
  {
    hide PoolOk, Lru.Valid, AllSized, InStep, Fill, WriteLive, AppendAt, EnsureAll, Prefetch, Trim, Stage, Release;
    match op
    case OpFill(key, kv) => FillTracks(t, s, key, kv);
    case OpLive(key, kv) => FillTracks(t, s, key, kv);
    case OpAppend(_, pos, kRow, vRow) => AppendTracks(t, s, Key(s, pos / t.blockSize), pos % t.blockSize, kRow, vRow);
    case OpEnsure(_, ids, keep) =>
      TouchedShaped(t, KeysOf(s, ids), KeysOf(s, keep));
      EnsureAllTracks(Touched(t, KeysOf(s, ids), KeysOf(s, keep)), s, KeysOf(s, ids));
    case OpPrefetch(_, ids) => PrefetchTracks(t, s, KeysOf(s, ids));
    case OpPrevSelected(_, _) =>
    case OpTrim(_, blocks) => TrimTracks(t, s, blocks);
    case OpIngest(_, blocks, tail) => IngestTracks(t, s, blocks, tail);
    case OpRelease(_, hostKeys) => ReleaseTracks(t, s, hostKeys, s);
  }

  /** With one sequence cached, the rows that reloading or making room looks at read as they must. */
  lemma RowsReadRight<T>(t: Tier<T>, s: nat, key: Key, protected: set<Key>)
    requires Tracks(t, s) && key.seqId == s
    ensures !RoomRefused(t, key, protected) && !ReloadRefused(t, key)
  {
    hide PoolOk, AllSized;
    assert key == Key(s, key.block);
    forall v | v in t.lru.order ensures MayEvict(t.residency, v.block) {
      assert v in Elems(t.lru.order) && v == Key(s, v.block);
    }
  }

  /** So no block of a pass is refused: the table stays in step with the tiers from one block to the next. */
  lemma {:induction false} PassesNotRefused<T>(t: Tier<T>, s: nat, keys: seq<Key>)
    requires Tracks(t, s) && forall k :: k in keys ==> k.seqId == s
    ensures !Refused(EnsureAll(t, keys)) && !Refused(Prefetch(t, keys))
    decreases |keys|
  {
    hide PoolOk, Lru.Valid, AllSized, InStep, EnsureOne, RoomRefused, ReloadRefused;
    if keys != [] {
      assert keys[0] in keys && forall k :: k in keys[1..] ==> k in keys;
      RowsReadRight(t, s, keys[0], {});
      ReloadRefusedIff(t, keys[0]);
      EnsureOneTracks(t, s, keys[0]);
      if EnsureOne(t, keys[0]).Ok? {
        var u := EnsureOne(t, keys[0]).state;
        DemotedShaped(u, keys[0]);
        PassesNotRefused(u, s, keys[1..]);
        PassesNotRefused(Demoted(u, keys[0]), s, keys[1..]);
      }
    }
  }

  /** While one sequence uses the layer, no operation is ever refused by the residency table. */
  lemma OneSequenceNeverRefused<T>(t: Tier<T>, s: nat, op: Op<T>)
    requires Tracks(t, s) && Concerns(op, s) && WellShaped(t, op) && HandOverFirst(t, s, op)
    ensures !Refused(Step(t, op))
    ensures Step(t, op).Ok? ==> Tracks(Step(t, op).state, s)
  {
    hide PoolOk, Lru.Valid, AllSized, InStep, RoomRefused, ReloadRefused, RoomFailure, TrimRefused, ListsCopies;
    hide Fill, WriteLive, AppendAt, EnsureAll, Prefetch, Trim, Stage, Release;
    StepTracks(t, s, op);
    match op
    case OpFill(key, kv) => RowsReadRight(t, s, key, {}); WritesFail(t, key, kv); RoomRefusedIff(t, key, {});
    case OpLive(key, kv) => RowsReadRight(t, s, key, {}); WritesFail(t, key, kv); RoomRefusedIff(t, key, {});
    case OpAppend(_, pos, kRow, vRow) =>
      var key := Key(s, pos / t.blockSize);
      RowsReadRight(t, s, key, {});
      AppendFails(t, key, pos % t.blockSize, kRow, vRow);
      RoomRefusedIff(t, key, {});
    case OpEnsure(_, ids, keep) =>
      TouchedShaped(t, KeysOf(s, ids), KeysOf(s, keep));
      PassesNotRefused(Touched(t, KeysOf(s, ids), KeysOf(s, keep)), s, KeysOf(s, ids));
    case OpPrefetch(_, ids) => PassesNotRefused(t, s, KeysOf(s, ids));
    case OpPrevSelected(_, _) =>
    case OpTrim(_, blocks) => HandOverReadsRight(t, s, |blocks|); TrimRefusedIff(t, s, blocks);
    case OpIngest(_, blocks, tail) => IngestNotRefused(t, s, blocks, tail);
    case OpRelease(_, _) =>
  }

  lemma IngestNotRefused<T>(t: Tier<T>, s: nat, blocks: seq<KV<T>>, tail: KV<T>)
    requires Tracks(t, s) && AllSized(blocks, t.blockSize) && |tail.k| == |tail.v| < t.blockSize
    requires s !in t.trimmed ==> t.lru.slot == map[] && Backing(t) == map[]
    ensures !Refused(Ingest(t, s, blocks, tail))
  {
    hide PoolOk, Lru.Valid, AllSized, InStep, RoomRefused, ReloadRefused, RoomFailure, TrimRefused, Trim, Stage;
    if s !in t.trimmed {
      HandOverReadsRight(t, s, |blocks|);
      TrimRefusedIff(t, s, blocks);
      if Trim(t, s, blocks).Ok? {
        var u, key := Trim(t, s, blocks).state, Key(s, |blocks|);
        TrimShaped(t, s, blocks);
        TrimTracks(t, s, blocks);
        RowsReadRight(u, s, key, {});
        RoomRefusedIff(u, key, {});
        if |tail.k| > 0 { StageFails(u, key, tail); }
      }
    }
  }

  lemma HandOverReadsRight<T>(t: Tier<T>, s: nat, blocks: nat)
    requires Tracks(t, s) && (s !in t.trimmed ==> t.lru.slot == map[] && Backing(t) == map[])
    ensures !TrimRefused(t, s, blocks)
  {
    hide PoolOk, Lru.Valid, AllSized;
    if s !in t.trimmed {
      forall i: nat ensures MayEvict(t.residency, i) {
        assert Key(s, i) !in Backing(t).Keys;
      }
    }
  }

  /**
   With two sequences the table aliases: after sequence `a`'s block was spilled, filling the same logical
   block for sequence `b` makes the table read OnGpu, and `a`'s reload is refused although its copy is intact.
   */
  lemma TwoSequencesRefused<T>(t: Tier<T>, a: Key, b: Key, kv: KV<T>)
    requires Shaped(t) && !t.writeThrough && a.block == b.block && a != b
    requires a !in t.lru.slot && a in t.cpuSlots && b !in t.lru.slot && |t.lru.free| >= 2 && Sized(kv, t.blockSize)
    ensures Fill(t, b, kv).Ok? && Shaped(Fill(t, b, kv).state)
    ensures a in Backing(Fill(t, b, kv).state) && Refused(EnsureOne(Fill(t, b, kv).state, a))
  {
    hide PoolOk, AllSized;
    PlaceShaped(t, b, {});
    AddValid(t.lru, b, {});
    var u := Fill(t, b, kv).state;
    assert u.lru.free == t.lru.free[..|t.lru.free| - 1] && u.lru.free != [];
    TakenShaped(u, a);
    AddValid(u.lru, a, ProtectedKeys(u, a.seqId));
  }
}
