/**
 When the tiered cache succeeds. While one sequence uses a layer, every operation's success is decided by
 conditions a caller can check beforehand: the blocks asked for were stored, and each block that has to leave
 the arena has a copy already or a host slot to go to. A write-back layer never raises as long as its blocks
 number fewer than its arena and host slots together.
 */
module TierSuccess {
  import opened Lists
  import opened SlotMap
  import opened WorkingSet
  import opened TierModel
  import opened TierTransparency
  import opened TierFailure
  import opened TierOutcome
  import opened TierSafety
  import opened TierAccounts

  // ------------------------------------------------------------------ reload passes

  /**
   The victims of a pass all have somewhere to go. Under write-back one spare slot in either pool is enough for any
   number of them: every reload gives back the host slot it read.
   */
  ghost predicate ShelteredAll<T>(t: Tier<T>, victims: seq<Key>) {
    if t.writeThrough then forall v :: v in victims ==> v in t.hostSlots
    else victims == [] || t.cpuFree != [] || t.lru.free != []
  }

  /** One block: it must have been stored, and whatever makes room for it must be sheltered. */
  lemma OneOkIff<T>(t: Tier<T>, p: Plain<T>, s: nat, key: Key)
    requires Tracks(t, s) && Represents(t, p) && key.seqId == s && t.lru.capacity > 0
    ensures Add(t.lru, key, ProtectedKeys(t, s)).Some?
    ensures EnsureOne(t, key).Ok?
            <==> key in p && ShelteredAll(t, OptSeq(Add(t.lru, key, ProtectedKeys(t, s)).value.evicted))
  {
    hide PoolOk, AllSized, InStep, EnsureOne, ArenaHolds, HostHolds;
    AddValid(t.lru, key, ProtectedKeys(t, s));
    ReloadOkIff(t, key);
    ReloadRefusedIff(t, key);
    RowsReadRight(t, s, key, {});
    if key in t.lru.slot { ResidentRows(t, p, key); }
    if key !in p { FreshNowhere(t, p, key); }
    if key in p { assert key in p.Keys - {}; }
  }

  lemma NoArenaNoReload<T>(t: Tier<T>, key: Key)
    requires Shaped(t) && t.lru.capacity == 0
    ensures !EnsureOne(t, key).Ok? && key !in t.lru.slot
  {
    hide PoolOk, AllSized, EnsureOne;
    assert key !in t.lru.slot;
    ReloadOkIff(t, key);
  }

  /** What a successful request leaves for the next one. */
  lemma ReloadLeaves<T>(t: Tier<T>, key: Key)
    requires Shaped(t) && EnsureOne(t, key).Ok?
    ensures var u := EnsureOne(t, key).state;
            && u.hostSlots == t.hostSlots
            && (key in t.lru.slot ==> u.cpuFree == t.cpuFree && u.lru.free == t.lru.free)
            && (key !in t.lru.slot && !t.writeThrough ==> u.cpuFree != [])
  {
    hide PoolOk, AllSized, Lru.Valid, Place;
    if key !in t.lru.slot {
      TakenShaped(t, key);
      var t0 := t.(cpuSlots := t.cpuSlots - {key});
      PlaceShaped(t0, key, ProtectedKeys(t, key.seqId));
      PlaceHostSlots(t0, key, ProtectedKeys(t, key.seqId));
    }
  }

  /**
   One request seen from the rest of the pass: it succeeds and leaves the rest's condition as it was, or the pass fails.
   */
  lemma PassStep<T>(t: Tier<T>, p: Plain<T>, s: nat, key: Key, rest: seq<Key>, later: seq<Key>)
    requires Tracks(t, s) && Represents(t, p) && key.seqId == s && t.lru.capacity > 0
    requires Add(t.lru, key, ProtectedKeys(t, s)).Some?
    requires later == OptSeq(Add(t.lru, key, ProtectedKeys(t, s)).value.evicted) + rest
    ensures EnsureOne(t, key).Ok? ==>
              key in p && (ShelteredAll(t, later) <==> ShelteredAll(EnsureOne(t, key).state, rest))
    ensures !EnsureOne(t, key).Ok? ==> key !in p || !ShelteredAll(t, later)
  {
    hide PoolOk, AllSized, InStep, EnsureOne, ArenaHolds, HostHolds, Lru.Valid;
    OneOkIff(t, p, s, key);
    AddValid(t.lru, key, ProtectedKeys(t, s));
    var e := Add(t.lru, key, ProtectedKeys(t, s)).value.evicted;
    if EnsureOne(t, key).Ok? {
      ReloadLeaves(t, key);
      EnsureOneShaped(t, key);
    }
    assert forall v :: v in later <==> v in OptSeq(e) || v in rest;
  }

  lemma {:induction false} EnsureAllOkIff<T>(t: Tier<T>, p: Plain<T>, s: nat, keys: seq<Key>)
    requires Tracks(t, s) && Represents(t, p) && forall k :: k in keys ==> k.seqId == s
    ensures EnsureAll(t, keys).Ok? <==>
            && (forall k :: k in keys ==> k in p) && (t.lru.capacity > 0 || keys == [])
            && ShelteredAll(t, Reload(t.lru, keys, ProtectedKeys(t, s)).victims)
    decreases |keys|
  {
    hide PoolOk, AllSized, InStep, EnsureOne, StoredBut, Lru.Valid, ShelteredAll, Add;
    if keys == [] {
      NothingToShelter(t);
    } else if t.lru.capacity == 0 {
      NoArenaNoReload(t, keys[0]);
    } else {
      var key, protected := keys[0], ProtectedKeys(t, s);
      assert forall k :: k in keys <==> k == key || k in keys[1..];
      RepresentsShaped(t, p);
      AddValid(t.lru, key, protected);
      var a := Add(t.lru, key, protected).value;
      var rest := Reload(a.lru, keys[1..], protected).victims;
      PassStep(t, p, s, key, rest, OptSeq(a.evicted) + rest);
      if EnsureOne(t, key).Ok? {
        var u := EnsureOne(t, key).state;
        EnsureOneLru(t, key);
        EnsureOneTracks(t, s, key);
        EnsureOneStored(t, p, key);
        EnsureAllOkIff(u, p, s, keys[1..]);
      }
    }
  }

  lemma RepresentsShaped<T>(t: Tier<T>, p: Plain<T>)
    requires Represents(t, p)
    ensures Shaped(t)
  {
  }

  lemma NothingToShelter<T>(t: Tier<T>)
    ensures ShelteredAll(t, [])
  {
  }

  lemma AllHeld(all: set<Key>, s: nat, ids: seq<nat>)
    ensures (forall k :: k in KeysOf(s, ids) ==> k in all) <==> (forall b :: b in ids ==> Key(s, b) in all)
  {
    if forall k :: k in KeysOf(s, ids) ==> k in all {
      forall b | b in ids ensures Key(s, b) in all { assert Key(s, b) in KeysOf(s, ids); }
    }
  }

  /**
   The exact condition for a decode step's residency request: every selected block was stored, and every victim
   of the pass over the slot map is mirrored (write-through) or there is a spare slot in either pool (write-back).
   */
  lemma ResidentOkIff<T>(t: Tier<T>, p: Plain<T>, s: nat, ids: seq<nat>, keep: seq<nat>)
    requires Tracks(t, s) && Represents(t, p)
    ensures EnsureResident(t, s, ids, keep).Ok? <==>
            && (forall b :: b in ids ==> Key(s, b) in p) && (t.lru.capacity > 0 || ids == [])
            && ShelteredAll(t, EnsurePass(t.lru, KeysOf(s, ids), KeysOf(s, keep), ProtectedKeys(t, s)).victims)
  {
    hide PoolOk, AllSized, InStep, ArenaHolds, HostHolds, Lru.Valid, EnsureAll, Reload, TouchAll;
    var idKeys, keepKeys := KeysOf(s, ids), KeysOf(s, keep);
    TouchedShaped(t, idKeys, keepKeys);
    TouchAllValid(t.lru, keepKeys);
    TouchAllValid(TouchAll(t.lru, keepKeys), idKeys);
    EnsureAllOkIff(Touched(t, idKeys, keepKeys), p, s, idKeys);
    AllHeld(p.Keys, s, ids);
  }

  lemma DemotedSame<T>(t: Tier<T>, p: Plain<T>, s: nat, key: Key, victims: seq<Key>)
    requires Tracks(t, s) && Represents(t, p)
    ensures Tracks(Demoted(t, key), s) && Represents(Demoted(t, key), p)
    ensures ShelteredAll(Demoted(t, key), victims) <==> ShelteredAll(t, victims)
    ensures SameMode(Demoted(t, key), t) && Demoted(t, key).lru.capacity == t.lru.capacity
  {
    hide PoolOk, AllSized, InStep, ArenaHolds, HostHolds, Lru.Valid;
    DemotedShaped(t, key);
  }

  lemma {:induction false} PrefetchOkIff<T>(t: Tier<T>, p: Plain<T>, s: nat, keys: seq<Key>)
    requires Tracks(t, s) && Represents(t, p) && forall k :: k in keys ==> k.seqId == s
    ensures Prefetch(t, keys).Ok? <==>
            && (forall k :: k in keys ==> k in p) && (t.lru.capacity > 0 || keys == [])
            && ShelteredAll(t, Speculate(t.lru, keys, ProtectedKeys(t, s), t.prefetchTouch).victims)
    decreases |keys|
  {
    hide PoolOk, AllSized, InStep, EnsureOne, StoredBut, Lru.Valid, ShelteredAll, Add;
    if keys == [] {
      NothingToShelter(t);
    } else if t.lru.capacity == 0 {
      NoArenaNoReload(t, keys[0]);
    } else {
      var key, protected := keys[0], ProtectedKeys(t, s);
      assert forall k :: k in keys <==> k == key || k in keys[1..];
      RepresentsShaped(t, p);
      AddValid(t.lru, key, protected);
      var a := Add(t.lru, key, protected).value;
      TouchValid(a.lru, key);
      var m := if t.prefetchTouch then a.lru else Demote(a.lru, key);
      var rest := Speculate(m, keys[1..], protected, t.prefetchTouch).victims;
      PassStep(t, p, s, key, rest, OptSeq(a.evicted) + rest);
      if EnsureOne(t, key).Ok? {
        var u := EnsureOne(t, key).state;
        EnsureOneLru(t, key);
        EnsureOneTracks(t, s, key);
        EnsureOneStored(t, p, key);
        DemotedSame(u, p, s, key, rest);
        PrefetchOkIff(Demoted(u, key), p, s, keys[1..]);
      }
    }
  }

  // ------------------------------------------------------------------ prompt hand-over

  /** For an unused layer the pool alone decides: the kept blocks fit the arena and every row allows sending out. */
  lemma {:induction false} PromptPasses<T>(t: Tier<T>, s: nat, n: nat, keepFrom: nat, b: nat)
    requires b <= n && keepFrom == KeepFrom(n, t.lru.capacity) && |t.lru.free| == t.lru.capacity
    requires t.hostSlots == map[] && t.lru.slot == map[] && forall x: nat :: MayEvict(t.residency, x)
    requires HostTaken(t, s, keepFrom, b) <= |t.cpuFree|
    requires ArenaTaken(t, s, keepFrom, b) == if b <= keepFrom then 0 else b - keepFrom
    ensures PromptFailure(t, s, n, keepFrom, b).None? <==> HostTaken(t, s, keepFrom, n) <= |t.cpuFree|
    decreases n - b
  {
    if b < n {
      if PromptFailureAt(t, s, keepFrom, b).None? {
        PromptPasses(t, s, n, keepFrom, b + 1);
      } else {
        HostTakenGrows(t, s, keepFrom, b + 1, n);
      }
    }
  }

  lemma {:induction false} ArenaTakenUnused<T>(t: Tier<T>, s: nat, keepFrom: nat, b: nat)
    requires t.lru.slot == map[]
    ensures ArenaTaken(t, s, keepFrom, b) == if b <= keepFrom then 0 else b - keepFrom
  {
    if b > 0 { ArenaTakenUnused(t, s, keepFrom, b - 1); }
  }

  /** What an unused layer's hand-over takes: everything under write-through, what is sent out under write-back. */
  lemma {:induction false} HostTakenUnused<T>(t: Tier<T>, s: nat, keepFrom: nat, b: nat)
    requires t.hostSlots == map[]
    ensures HostTaken(t, s, keepFrom, b) == if t.writeThrough || b <= keepFrom then b else keepFrom
  {
    if b > 0 { HostTakenUnused(t, s, keepFrom, b - 1); }
  }

  lemma HasSlots(l: Lru)
    requires l.Valid() && l.free != []
    ensures l.capacity > 0
  {
  }

  /** The host pool takes what the hand-over of `n` prompt blocks sends to it. */
  predicate PoolTakes<T>(t: Tier<T>, s: nat, n: nat) {
    HostTaken(t, s, KeepFrom(n, t.lru.capacity), n) <= |t.cpuFree|
  }

  /** A prompt hand-over to an unused layer succeeds exactly when the pool takes the blocks that go to the host. */
  lemma TrimOkIff<T>(t: Tier<T>, s: nat, blocks: seq<KV<T>>)
    requires Tracks(t, s) && AllSized(blocks, t.blockSize) && s !in t.trimmed && t.lru.slot == map[] &&
             Backing(t) == map[]
    ensures Trim(t, s, blocks).Ok?
            <==> PoolTakes(t, s, |blocks|)
    ensures Trim(t, s, blocks).Ok? ==>
              var u := Trim(t, s, blocks).state;
              u.lru.capacity == t.lru.capacity && (t.lru.capacity > 0 ==> u.lru.free != [])
  {
    hide PoolOk, AllSized, Lru.Valid, InStep, Trim, PromptFailure, Speculate;
    var n, keepFrom := |blocks|, KeepFrom(|blocks|, t.lru.capacity);
    SlotsHeld(t.lru);
    assert t.lru.slot.Keys == {};
    forall x: nat ensures MayEvict(t.residency, x) { FreshReadsOnGpu(t, s, Key(s, x)); }
    TrimOutcome(t, s, blocks);
    PromptPasses(t, s, n, keepFrom, 0);
    ArenaTakenUnused(t, s, keepFrom, n);
  }

  lemma IngestOkIff<T>(t: Tier<T>, s: nat, blocks: seq<KV<T>>, tail: KV<T>)
    requires Tracks(t, s) && AllSized(blocks, t.blockSize) && |tail.k| == |tail.v| < t.blockSize
    requires s !in t.trimmed && t.lru.slot == map[] && Backing(t) == map[]
    ensures Ingest(t, s, blocks, tail).Ok? <==>
            && PoolTakes(t, s, |blocks|)
            && (|tail.k| == 0 || t.lru.capacity > 0)
  {
    hide PoolOk, AllSized, InStep, Trim, Stage;
    TrimOkIff(t, s, blocks);
    if Trim(t, s, blocks).Ok? {
      TrimShaped(t, s, blocks);
      if |tail.k| > 0 { StageFails(Trim(t, s, blocks).state, Key(s, |blocks|), tail); }
    }
  }

  // ------------------------------------------------------------------ any operation

  /** There is an arena slot for `key`, or the block first in line for eviction has somewhere to go. */
  predicate RoomFor<T>(t: Tier<T>, key: Key) {
    RoomLeft(t, key) || (t.lru.order != [] && Sheltered(t, Victim(t.lru.order, {})))
  }

  lemma RoomForIff<T>(t: Tier<T>, s: nat, key: Key)
    requires Tracks(t, s) && key.seqId == s
    ensures RoomFailure(t, key, {}).None? <==> RoomFor(t, key)
  {
    RowsReadRight(t, s, key, {});
  }

  /** What must hold before an operation for it to go through. */
  ghost predicate StepFits<T>(t: Tier<T>, p: Plain<T>, op: Op<T>)
    requires Shaped(t)
  {
    match op
    case OpFill(key, _) => RoomFor(t, key) && MirrorFailure(t, key).None?
    case OpLive(key, _) => RoomFor(t, key)
    case OpAppend(seqId, pos, _, _) =>
      var key := Key(seqId, pos / t.blockSize);
      RoomFor(t, key) && (pos % t.blockSize == t.blockSize - 1 ==> MirrorFailure(t, key).None?)
    case OpEnsure(seqId, ids, keep) =>
      && (forall b :: b in ids ==> Key(seqId, b) in p) && (t.lru.capacity > 0 || ids == [])
      && ShelteredAll(t, EnsurePass(t.lru, KeysOf(seqId, ids), KeysOf(seqId, keep), ProtectedKeys(t, seqId)).victims)
    case OpPrefetch(seqId, ids) =>
      && (forall b :: b in ids ==> Key(seqId, b) in p) && (t.lru.capacity > 0 || ids == [])
      && ShelteredAll(t, Speculate(t.lru, KeysOf(seqId, ids), ProtectedKeys(t, seqId), t.prefetchTouch).victims)
    case OpTrim(seqId, blocks) =>
      seqId in t.trimmed || PoolTakes(t, seqId, |blocks|)
    case OpIngest(seqId, blocks, tail) =>
      || seqId in t.trimmed
      || (&& PoolTakes(t, seqId, |blocks|)
          && (|tail.k| == 0 || t.lru.capacity > 0))
    case _ => true
  }

  /** While one sequence uses the layer, an operation raises exactly when `StepFits` fails. */
  lemma StepOkIff<T>(t: Tier<T>, p: Plain<T>, s: nat, op: Op<T>)
    requires Tracks(t, s) && Represents(t, p) && Concerns(op, s) && WellShaped(t, op) && HandOverFirst(t, s, op)
    ensures Step(t, op).Ok? <==> StepFits(t, p, op)
  {
    hide PoolOk, AllSized, InStep, ArenaHolds, HostHolds;
    hide Lru.Valid, ShelteredAll, Speculate, EnsurePass, RoomFor, RoomFailure;
    hide Fill, WriteLive, AppendAt, EnsureResident, Prefetch, Trim, Ingest, Release;
    match op
    case OpFill(key, kv) => WritesFail(t, key, kv); RoomForIff(t, s, key);
    case OpLive(key, kv) => WritesFail(t, key, kv); RoomForIff(t, s, key);
    case OpAppend(_, pos, kRow, vRow) =>
      AppendFails(t, Key(s, pos / t.blockSize), pos % t.blockSize, kRow, vRow);
      RoomForIff(t, s, Key(s, pos / t.blockSize));
    case OpEnsure(_, ids, keep) => ResidentOkIff(t, p, s, ids, keep);
    case OpPrefetch(_, ids) =>
      PrefetchOkIff(t, p, s, KeysOf(s, ids));
      AllHeld(p.Keys, s, ids);
    case OpPrevSelected(_, _) =>
    case OpTrim(_, blocks) =>
      if s in t.trimmed { SecondTrim(t, s, blocks); } else { TrimOkIff(t, s, blocks); }
    case OpIngest(_, blocks, tail) =>
      if s in t.trimmed { SecondIngest(t, s, blocks, tail); } else { IngestOkIff(t, s, blocks, tail); }
    case OpRelease(_, _) =>
  }

  // ------------------------------------------------------------------ counting slots

  /** The blocks are those in the arena and those with a host record. */
  lemma KnownKeys<T>(t: Tier<T>, p: Plain<T>)
    requires Represents(t, p)
    ensures p.Keys == t.lru.slot.Keys + Backing(t).Keys
  {
    hide PoolOk, AllSized, Lru.Valid;
    assert p.Keys - {} == p.Keys;
  }

  lemma SlotsHeld(l: Lru)
    requires l.Valid()
    ensures |l.slot.Keys| + |l.free| == l.capacity == |l.order| + |l.free|
  {
    ElemsSize(l.order);
  }

  lemma Disjoint(a: set<Key>, b: set<Key>, c: set<Key>)
    requires c == a + b && a !! b
    ensures |c| == |a| + |b|
  {
  }

  /** Write-back stores every block exactly once, so the free slots of both pools are what the blocks leave over. */
  lemma StockTaking<T>(t: Tier<T>, p: Plain<T>)
    requires Accounted(t) && Represents(t, p) && !t.writeThrough
    ensures |p.Keys| + |t.cpuFree| + |t.lru.free| == |t.cpu| + t.lru.capacity
  {
    hide PoolOk, AllSized, Lru.Valid, ArenaHolds, HostHolds;
    KnownKeys(t, p);
    SlotsHeld(t.lru);
    assert t.lru.slot.Keys !! t.cpuSlots.Keys;
    Disjoint(t.lru.slot.Keys, t.cpuSlots.Keys, p.Keys);
  }

  /** In a full arena a pass evicts nothing exactly when everything it asks for is there. */
  lemma {:induction false} FullPassVictims(l: Lru, ks: seq<Key>, protected: set<Key>)
    requires l.Valid() && l.free == [] && l.capacity > 0
    ensures Reload(l, ks, protected).victims == [] <==> forall k :: k in ks ==> k in l.slot
    decreases |ks|
  {
    hide Lru.Valid;
    if ks != [] {
      assert forall k :: k in ks <==> k == ks[0] || k in ks[1..];
      AddValid(l, ks[0], protected);
      if ks[0] in l.slot { FullPassVictims(Touch(l, ks[0]), ks[1..], protected); }
    }
  }

  lemma {:induction false} FullSpeculationVictims(l: Lru, ks: seq<Key>, protected: set<Key>, trusted: bool)
    requires l.Valid() && l.free == [] && l.capacity > 0
    ensures Speculate(l, ks, protected, trusted).victims == [] <==> forall k :: k in ks ==> k in l.slot
    decreases |ks|
  {
    hide Lru.Valid;
    if ks != [] {
      assert forall k :: k in ks <==> k == ks[0] || k in ks[1..];
      AddValid(l, ks[0], protected);
      if ks[0] in l.slot {
        var m := Touch(l, ks[0]);
        TouchValid(m, ks[0]);
        FullSpeculationVictims(if trusted then m else Demote(m, ks[0]), ks[1..], protected, trusted);
      }
    }
  }

  function Slots<T>(t: Tier<T>): nat {
    |t.cpu| + t.lru.capacity
  }

  /** Write-back success in numbers: how many blocks there are, and how many slots. */
  ghost predicate Enough<T>(t: Tier<T>, p: Plain<T>, op: Op<T>)
    requires t.blockSize > 0
  {
    match op
    case OpEnsure(seqId, ids, _) => ReloadsFit(t, p, seqId, ids)
    case OpPrefetch(seqId, ids) => ReloadsFit(t, p, seqId, ids)
    case OpTrim(seqId, blocks) => seqId in t.trimmed || |blocks| < Slots(t)
    case OpIngest(seqId, blocks, _) => seqId in t.trimmed || |blocks| < Slots(t)
    case _ => |PlainStep(t, p, op).Keys| <= Slots(t)
  }

  ghost predicate ReloadsFit<T>(t: Tier<T>, p: Plain<T>, seqId: nat, ids: seq<nat>) {
    && (forall b :: b in ids ==> Key(seqId, b) in p)
    && ((forall b :: b in ids ==> Key(seqId, b) in t.lru.slot) || |p.Keys| < Slots(t))
  }

  /** A write-back layer with an arena, serving one sequence, with its books in order. */
  ghost predicate Serving<T>(t: Tier<T>, p: Plain<T>, s: nat) {
    Tracks(t, s) && Represents(t, p) && Accounted(t) && !t.writeThrough && t.lru.capacity > 0
  }

  lemma WriteFits<T>(t: Tier<T>, p: Plain<T>, s: nat, key: Key, kv: KV<T>)
    requires Serving(t, p, s) && key !in t.cpuSlots
    ensures RoomFor(t, key) <==> |p[key := kv].Keys| <= Slots(t)
  {
    hide StoredBut, TracksBut, AccountedTo, Lru.Valid;
    RepresentsShaped(t, p);
    StockTaking(t, p);
    KnownKeys(t, p);
    SlotsHeld(t.lru);
    if key in p {
      assert p[key := kv].Keys == p.Keys;
    } else {
      OneMore(p.Keys, p[key := kv].Keys, key);
    }
  }

  lemma EnsureFitsIff<T>(t: Tier<T>, p: Plain<T>, s: nat, ids: seq<nat>, keep: seq<nat>)
    requires Serving(t, p, s)
    ensures StepFits(t, p, OpEnsure(s, ids, keep)) <==> ReloadsFit(t, p, s, ids)
  {
    hide StoredBut, TracksBut, AccountedTo, Lru.Valid, Reload, TouchAll, ProtectedKeys;
    RepresentsShaped(t, p);
    StockTaking(t, p);
    var keys, keepKeys := KeysOf(s, ids), KeysOf(s, keep);
    TouchAllValid(t.lru, keepKeys);
    TouchAllValid(TouchAll(t.lru, keepKeys), keys);
    AllHeld(t.lru.slot.Keys, s, ids);
    if t.lru.free == [] { FullPassVictims(TouchAll(TouchAll(t.lru, keepKeys), keys), keys, ProtectedKeys(t, s)); }
  }

  lemma PrefetchFitsIff<T>(t: Tier<T>, p: Plain<T>, s: nat, ids: seq<nat>)
    requires Serving(t, p, s)
    ensures StepFits(t, p, OpPrefetch(s, ids)) <==> ReloadsFit(t, p, s, ids)
  {
    hide StoredBut, TracksBut, AccountedTo, Lru.Valid, Speculate, ProtectedKeys;
    RepresentsShaped(t, p);
    StockTaking(t, p);
    AllHeld(t.lru.slot.Keys, s, ids);
    if t.lru.free == [] { FullSpeculationVictims(t.lru, KeysOf(s, ids), ProtectedKeys(t, s), t.prefetchTouch); }
  }

  lemma UnusedIsEmpty<T>(t: Tier<T>, p: Plain<T>)
    requires Represents(t, p) && t.lru.slot == map[] && Backing(t) == map[]
    ensures p == map[]
  {
    hide PoolOk, AllSized, Lru.Valid;
    KnownKeys(t, p);
    assert p.Keys == {};
  }

  lemma HandOverFits<T>(t: Tier<T>, p: Plain<T>, s: nat, n: nat)
    requires Serving(t, p, s) && t.lru.slot == map[] && Backing(t) == map[]
    ensures PoolTakes(t, s, n) <==> n < Slots(t)
  {
    hide PoolOk, AllSized, InStep, ArenaHolds, HostHolds, Lru.Valid;
    UnusedIsEmpty(t, p);
    StockTaking(t, p);
    SlotsHeld(t.lru);
    assert p.Keys == {} && t.lru.slot.Keys == {};
    HostTakenUnused(t, s, KeepFrom(n, t.lru.capacity), n);
  }

  lemma ForgetShrinks<T>(p: Plain<T>, s: nat)
    ensures |Forget(p, s).Keys| <= |p.Keys|
  {
    SubsetSize(Forget(p, s).Keys, p.Keys);
  }

  /**
   Serving one sequence, a write-back layer raises exactly when it runs out of slots: a write when the blocks would
   outnumber all slots, a reload of something not in the arena when they fill them all, a prompt hand-over when
   the prompt has at least as many blocks as there are slots.
   */
  lemma WriteBackOkIff<T>(t: Tier<T>, p: Plain<T>, s: nat, op: Op<T>)
    requires Serving(t, p, s) && Concerns(op, s) && WellShaped(t, op) && HandOverFirst(t, s, op) && Unspilled(t, op)
    ensures Step(t, op).Ok? <==> Enough(t, p, op)
  {
    hide Serving, Step, StepFits, Enough, WellShaped, HandOverFirst, Unspilled, Shaped, TracksBut, StoredBut;
    ServingShaped(t, p, s);
    StepOkIff(t, p, s, op);
    if op.OpFill? || op.OpLive? || op.OpAppend? { WritesEnough(t, p, s, op); } else { OthersEnough(t, p, s, op); }
  }

  lemma ServingShaped<T>(t: Tier<T>, p: Plain<T>, s: nat)
    requires Serving(t, p, s)
    ensures Shaped(t) && t.blockSize > 0 && Tracks(t, s) && Represents(t, p)
  {
    hide TracksBut, AccountedTo, PoolOk, AllSized, Lru.Valid;
  }

  lemma WritesEnough<T>(t: Tier<T>, p: Plain<T>, s: nat, op: Op<T>)
    requires Serving(t, p, s) && Shaped(t) && Concerns(op, s) && Unspilled(t, op) &&
             (op.OpFill? || op.OpLive? || op.OpAppend?)
    ensures StepFits(t, p, op) <==> Enough(t, p, op)
  {
    hide StoredBut, TracksBut, AccountedTo, Lru.Valid, PoolOk, AllSized, RoomFor, Grown;
    match op
    case OpFill(key, kv) => WriteFits(t, p, s, key, kv);
    case OpLive(key, kv) => WriteFits(t, p, s, key, kv);
    case OpAppend(_, pos, kRow, vRow) =>
      var key := Key(s, pos / t.blockSize);
      WriteFits(t, p, s, key, Grown(p, key, kRow, vRow, pos % t.blockSize));
  }

  lemma OthersEnough<T>(t: Tier<T>, p: Plain<T>, s: nat, op: Op<T>)
    requires Serving(t, p, s) && Shaped(t) && Concerns(op, s) && HandOverFirst(t, s, op)
    requires !op.OpFill? && !op.OpLive? && !op.OpAppend?
    ensures StepFits(t, p, op) <==> Enough(t, p, op)
  {
    hide StoredBut, TracksBut, AccountedTo, Lru.Valid, PoolOk, AllSized, ReloadsFit, PoolTakes;
    hide ShelteredAll, Speculate, EnsurePass, Forget;
    match op
    case OpEnsure(_, ids, keep) => EnsureFitsIff(t, p, s, ids, keep);
    case OpPrefetch(_, ids) => PrefetchFitsIff(t, p, s, ids);
    case OpPrevSelected(_, _) => StockTaking(t, p);
    case OpTrim(_, blocks) => if s !in t.trimmed { HandOverFits(t, p, s, |blocks|); }
    case OpIngest(_, blocks, tail) => if s !in t.trimmed { HandOverFits(t, p, s, |blocks|); }
    case OpRelease(_, _) => StockTaking(t, p); ForgetShrinks(p, s);
  }
}
