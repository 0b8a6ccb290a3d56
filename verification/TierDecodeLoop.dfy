/**
 The engine's decode loop over a new layer, request after request: hand the prompt over, then step by step write the
 live block (whole, or token by token), fill it when it is full, guess ahead, and ask for the selected blocks while
 keeping the live one. In both modes no operation raises, the live block never leaves the arena while it is the tail,
 and everything selected reads back. The caller's side is stated in terms of what it has stored and which block is
 live; nothing is assumed about where blocks are.
 */
module TierDecodeLoop {
  import opened Lists
  import opened SlotMap
  import opened WorkingSet
  import opened Speculation
  import opened TierModel
  import opened TierTransparency
  import opened TierPlacement
  import opened TierFailure
  import opened TierSafety
  import opened TierAccounts
  import opened TierSuccess
  import opened TierService

  /** The block at the end of the sequence: still growing, full and just written, or of no further concern. */
  datatype Last = Nothing | Live(key: Key) | Full(key: Key)

  /** The last block is in the arena, and under write-through exactly the live block has no mirror. */
  ghost predicate Tailed<T>(t: Tier<T>, p: Plain<T>, last: Last) {
    && (!last.Nothing? ==> last.key in p && last.key in t.lru.slot)
    && (t.writeThrough ==> forall x :: x in p ==> (x in t.hostSlots <==> last != Live(x)))
  }

  ghost predicate Decoding<T>(t: Tier<T>, p: Plain<T>, s: nat, last: Last) {
    && Tracks(t, s) && Represents(t, p) && Accounted(t) && t.lru.capacity > 0
    && Tailed(t, p, last)
  }

  // ------------------------------------------------------------------ the caller's side

  /** `key` is the block to write next: the live one, or a new one once the last is full. */
  ghost predicate Next<T>(p: Plain<T>, last: Last, key: Key) {
    last == Live(key) || (!last.Live? && key !in p)
  }

  /** A full block written over with the same rows, as the first step after a prompt of whole blocks does. */
  ghost predicate Again<T>(t: Tier<T>, p: Plain<T>, last: Last, key: Key, kv: KV<T>) {
    !last.Live? && key in p && p[key] == kv && (t.writeThrough || last == Full(key))
  }

  /**
   What the loop does: it writes the next block, appends at the end of the live block, asks for and guesses only stored
   blocks, names the live block among those to keep, hands a prompt over before anything else, and guesses only what
   spares the live block.
   */
  ghost predicate Habit<T>(t: Tier<T>, p: Plain<T>, s: nat, last: Last, op: Op<T>)
    requires t.blockSize > 0
  {
    match op
    case OpFill(key, kv) => Next(p, last, key) || Again(t, p, last, key, kv)
    case OpLive(key, _) => Next(p, last, key)
    case OpAppend(_, pos, _, _) =>
      var key, offset := Key(s, pos / t.blockSize), pos % t.blockSize;
      && Next(p, last, key)
      && (if offset == 0 then key !in p else key in p && |p[key].k| == offset == |p[key].v|)
    case OpEnsure(_, ids, keep) =>
      && (forall b :: b in ids ==> Key(s, b) in p) && (last.Live? ==> last.key in KeysOf(s, keep))
      && RequestFits(t, s, ids, keep)
    case OpPrefetch(_, ids) =>
      && (forall b :: b in ids ==> Key(s, b) in p)
      && (last.Live? && t.lru.Valid() ==> SparesLive(t, KeysOf(s, ids), ProtectedKeys(t, s), last.key))
    case OpTrim(_, _) => s !in t.trimmed ==> p == map[]
    case OpIngest(_, _, _) => s !in t.trimmed ==> p == map[]
    case _ => true
  }

  /**
   Guesses that leave the live block where it must be. Under write-through it has no mirror, so none may take it: none
   may miss, with no slot free, while it is next to go. Under write-back it must be in the arena when they are done.
   */
  ghost predicate SparesLive<T>(t: Tier<T>, keys: seq<Key>, protected: set<Key>, live: Key)
    requires t.lru.Valid()
  {
    if t.writeThrough then !Takes(t.lru, keys, protected, t.prefetchTouch, live)
    else live in Speculate(t.lru, keys, protected, t.prefetchTouch).lru.slot
  }

  /** The step's blocks fit the arena, and the mixture ordering leaves room for them. */
  ghost predicate RequestFits<T>(t: Tier<T>, s: nat, ids: seq<nat>, keep: seq<nat>) {
    var need := Need(t.lru, KeysOf(s, ids), KeysOf(s, keep));
    && |need| <= t.lru.capacity
    && (t.mixture ==> Spared(t.lru, need, KeysOf(s, ids), ProtectedKeys(t, s)))
  }

  /** Blocks against slots: mirrored ones fit the host pool, or all of them leave one slot of both pools over. */
  ghost predicate Roomy<T>(t: Tier<T>, p: Plain<T>, op: Op<T>)
    requires t.blockSize > 0
  {
    if !t.writeThrough then |PlainStep(t, p, op).Keys| < Slots(t)
    else match op
      case OpFill(_, _) => |PlainStep(t, p, op).Keys| <= |t.cpu|
      case OpAppend(_, pos, _, _) => pos % t.blockSize == t.blockSize - 1 ==> |PlainStep(t, p, op).Keys| <= |t.cpu|
      case OpTrim(s, blocks) => s in t.trimmed || |blocks| <= |t.cpu|
      case OpIngest(s, blocks, _) => s in t.trimmed || |blocks| <= |t.cpu|
      case _ => true
  }

  /** One turn of the loop, as far as its caller is concerned. */
  ghost predicate Turn<T>(t: Tier<T>, p: Plain<T>, s: nat, last: Last, op: Op<T>) {
    && Shaped(t) && Concerns(op, s) && WellShaped(t, op)
    && Habit(t, p, s, last, op) && Roomy(t, p, op)
  }

  ghost function LastAfter<T>(t: Tier<T>, s: nat, last: Last, op: Op<T>): Last
    requires t.blockSize > 0
  {
    match op
    case OpFill(key, _) => Full(key)
    case OpLive(key, _) => Live(key)
    case OpAppend(_, pos, _, _) =>
      var key := Key(s, pos / t.blockSize);
      if pos % t.blockSize == t.blockSize - 1 then Full(key) else Live(key)
    case OpEnsure(_, _, _) => if last.Live? then last else Nothing
    case OpPrefetch(_, _) => if last.Live? then last else Nothing
    case OpPrevSelected(_, _) => last
    case OpTrim(_, blocks) =>
      if s in t.trimmed then last
      else if blocks != [] && t.lru.capacity > 1 then Full(Key(s, |blocks| - 1))
      else Nothing
    case OpIngest(_, blocks, tail) =>
      if s in t.trimmed then last else if |tail.k| > 0 then Live(Key(s, |blocks|)) else Nothing
    case OpRelease(_, _) => Nothing
  }

  // ------------------------------------------------------------------ the discipline follows

  lemma WrittenUnspilled<T>(t: Tier<T>, p: Plain<T>, s: nat, last: Last, key: Key)
    requires Decoding(t, p, s, last) && (Next(p, last, key) || last == Full(key) || t.writeThrough)
    ensures key !in t.cpuSlots
    ensures Next(p, last, key) && t.writeThrough ==> key !in t.hostSlots
    ensures Next(p, last, key) && key in p ==> key in t.lru.slot
  {
    hide TracksBut, PoolOk, Lru.Valid, AllSized, ArenaHolds, HostHolds;
    if key !in p { FreshNowhere(t, p, key); }
  }

  lemma NothingStored<T>(t: Tier<T>, p: Plain<T>)
    requires Represents(t, p) && p == map[]
    ensures t.lru.slot == map[] && Backing(t) == map[]
  {
    hide StoredBut;
    KnownKeys(t, p);
    assert t.lru.slot.Keys == {} && Backing(t).Keys == {};
  }

  /** Nothing has to be assumed about where blocks are: the loop's habits keep its writes in order. */
  lemma HabitProper<T>(t: Tier<T>, p: Plain<T>, s: nat, last: Last, op: Op<T>)
    requires Decoding(t, p, s, last) && Turn(t, p, s, last, op)
    ensures Proper(t, p, s, op)
  {
    hide StoredBut, TracksBut, AccountedTo, PoolOk, Lru.Valid, AllSized, RequestFits, Roomy, Tailed, ListsCopies, Next;
    match op
    case OpFill(key, _) => WrittenUnspilled(t, p, s, last, key);
    case OpLive(key, _) => WrittenUnspilled(t, p, s, last, key);
    case OpAppend(_, pos, _, _) => WrittenUnspilled(t, p, s, last, Key(s, pos / t.blockSize));
    case OpTrim(_, _) => if p == map[] { NothingStored(t, p); }
    case OpIngest(_, _, _) => if p == map[] { NothingStored(t, p); }
    case _ =>
  }

  // ------------------------------------------------------------------ every turn goes through

  /** Room for a mirror: the mirrored blocks are blocks, and the one about to be mirrored is not among them. */
  lemma MirrorFits<T>(t: Tier<T>, p: Plain<T>, key: Key, kv: KV<T>)
    requires Represents(t, p) && Accounted(t) && t.writeThrough && key !in t.hostSlots && |p[key := kv].Keys| <= |t.cpu|
    ensures t.cpuFree != []
  {
    hide StoredBut;
    KnownKeys(t, p);
    OneMore(t.hostSlots.Keys, t.hostSlots.Keys + {key}, key);
    SubsetSize(t.hostSlots.Keys + {key}, p[key := kv].Keys);
  }

  /** Under write-through the next block finds room: whatever is first in line for eviction has its mirror. */
  lemma NextHasRoom<T>(t: Tier<T>, p: Plain<T>, s: nat, last: Last, key: Key)
    requires Decoding(t, p, s, last) && t.writeThrough && (last.Live? ==> last.key == key)
    ensures RoomFor(t, key)
  {
    hide StoredBut, TracksBut, PoolOk, AllSized, AccountedTo;
    RepresentsShaped(t, p);
    KnownKeys(t, p);
    SlotsHeld(t.lru);
    if !RoomLeft(t, key) {
      var v := Victim(t.lru.order, {});
      assert v in Elems(t.lru.order);
      assert v in t.lru.slot.Keys && v in p;
    }
  }

  lemma WriteGoesThrough<T>(t: Tier<T>, p: Plain<T>, s: nat, last: Last, op: Op<T>)
    requires Decoding(t, p, s, last) && t.writeThrough && Turn(t, p, s, last, op)
    requires op.OpFill? || op.OpLive? || op.OpAppend?
    ensures StepFits(t, p, op)
  {
    hide StoredBut, TracksBut, AccountedTo, RoomFor, Grown, PoolOk, AllSized, Lru.Valid, Tailed;
    match op
    case OpFill(key, kv) =>
      NextHasRoom(t, p, s, last, key);
      if key !in t.hostSlots { MirrorFits(t, p, key, kv); }
    case OpLive(key, _) => NextHasRoom(t, p, s, last, key);
    case OpAppend(_, pos, kRow, vRow) =>
      var key := Key(s, pos / t.blockSize);
      NextHasRoom(t, p, s, last, key);
      if key !in t.hostSlots && pos % t.blockSize == t.blockSize - 1 {
        MirrorFits(t, p, key, Grown(p, key, kRow, vRow, pos % t.blockSize));
      }
  }

  lemma FitsAreSpared<T>(t: Tier<T>, s: nat, ids: seq<nat>, keep: seq<nat>)
    requires Shaped(t) && RequestFits(t, s, ids, keep)
    ensures Spared(t.lru, Need(t.lru, KeysOf(s, ids), KeysOf(s, keep)), KeysOf(s, ids), ProtectedKeys(t, s))
  {
    hide PoolOk, AllSized, Lru.Valid;
    if !t.mixture {
      SlotsHeld(t.lru);
      FittingIsSpared(t.lru.slot.Keys, |t.lru.free|, Need(t.lru, KeysOf(s, ids), KeysOf(s, keep)), KeysOf(s, ids));
    }
  }

  /** What the request does not need can be given up: mirrored, or there is a spare slot. */
  lemma UnneededCovered<T>(t: Tier<T>, p: Plain<T>, s: nat, last: Last, ids: seq<nat>, keep: seq<nat>)
    requires Decoding(t, p, s, last) && Turn(t, p, s, last, OpEnsure(s, ids, keep))
    ensures Covered(t, Need(t.lru, KeysOf(s, ids), KeysOf(s, keep)), s, ids)
  {
    hide StoredBut, TracksBut, AccountedTo, PoolOk, AllSized, Lru.Valid;
    RepresentsShaped(t, p);
    KnownKeys(t, p);
    if t.writeThrough {
      forall x | x in t.lru.slot && x !in Need(t.lru, KeysOf(s, ids), KeysOf(s, keep)) ensures x in t.hostSlots {
        assert x in t.lru.slot.Keys && x in p;
        assert x in KeysOf(s, keep) <==> x in Elems(KeysOf(s, keep));
      }
    } else {
      StockTaking(t, p);
    }
  }

  /** A request goes through, and everything it needs reads back, the live block included. */
  lemma RequestReadsBack<T>(t: Tier<T>, p: Plain<T>, s: nat, last: Last, ids: seq<nat>, keep: seq<nat>)
    requires Decoding(t, p, s, last) && Turn(t, p, s, last, OpEnsure(s, ids, keep))
    ensures EnsureResident(t, s, ids, keep).Ok?
    ensures forall b :: b in ids ==> ReadsBack(EnsureResident(t, s, ids, keep).state, p, Key(s, b))
    ensures last.Live? ==> ReadsBack(EnsureResident(t, s, ids, keep).state, p, last.key)
  {
    hide StoredBut, TracksBut, AccountedTo, PoolOk, AllSized, Lru.Valid, EnsureResident, ReadsBack, Covered, Spared;
    FitsAreSpared(t, s, ids, keep);
    UnneededCovered(t, p, s, last, ids, keep);
    SelectedBlocksReadBack(t, p, s, ids, keep);
    var need, u := Need(t.lru, KeysOf(s, ids), KeysOf(s, keep)), EnsureResident(t, s, ids, keep).state;
    forall b | b in ids ensures ReadsBack(u, p, Key(s, b)) {
      assert Key(s, b) in KeysOf(s, ids);
      assert Key(s, b) in need;
    }
    if last.Live? {
      assert last.key in Elems(KeysOf(s, keep));
      assert last.key in need;
    }
  }

  /** Guesses go through: their victims are stored blocks other than the live one, so they have mirrors. */
  lemma GuessesGoThrough<T>(t: Tier<T>, p: Plain<T>, s: nat, last: Last, ids: seq<nat>)
    requires Decoding(t, p, s, last) && t.writeThrough && Turn(t, p, s, last, OpPrefetch(s, ids))
    ensures StepFits(t, p, OpPrefetch(s, ids))
  {
    hide StoredBut, TracksBut, AccountedTo, PoolOk, AllSized, Lru.Valid, Speculate;
    RepresentsShaped(t, p);
    KnownKeys(t, p);
    var keys := KeysOf(s, ids);
    AllHeld(p.Keys, s, ids);
    var protected, trusted := ProtectedKeys(t, s), t.prefetchTouch;
    GuessVictims(t.lru, keys, protected, trusted);
    if last.Live? { VictimsIff(t.lru, keys, protected, trusted, last.key); }
    forall v | v in Speculate(t.lru, keys, protected, trusted).victims ensures v in t.hostSlots {
      assert v in t.lru.slot.Keys + p.Keys;
    }
  }

  lemma HandOverGoesThrough<T>(t: Tier<T>, p: Plain<T>, s: nat, n: nat)
    requires Represents(t, p) && Accounted(t) && t.writeThrough && p == map[] && n <= |t.cpu|
    ensures PoolTakes(t, s, n)
  {
    hide StoredBut, PoolOk, AllSized, Lru.Valid;
    NothingStored(t, p);
    assert Backing(t).Keys == {};
    HostTakenUnused(t, s, KeepFrom(n, t.lru.capacity), n);
  }

  lemma MirroredTurn<T>(t: Tier<T>, p: Plain<T>, s: nat, last: Last, op: Op<T>)
    requires Decoding(t, p, s, last) && t.writeThrough && Turn(t, p, s, last, op)
    ensures Step(t, op).Ok?
  {
    hide StoredBut, TracksBut, AccountedTo, RoomFor, Grown;
    hide PoolOk, AllSized, Lru.Valid, ListsCopies, Tailed, RequestFits;
    hide Fill, WriteLive, AppendAt, EnsureResident, Prefetch, Trim;
    hide Ingest, Release, PoolTakes, ShelteredAll, EnsurePass, Speculate;
    HabitProper(t, p, s, last, op);
    StepOkIff(t, p, s, op);
    match op
    case OpFill(_, _) => WriteGoesThrough(t, p, s, last, op);
    case OpLive(_, _) => WriteGoesThrough(t, p, s, last, op);
    case OpAppend(_, _, _, _) => WriteGoesThrough(t, p, s, last, op);
    case OpEnsure(_, ids, keep) => RequestReadsBack(t, p, s, last, ids, keep);
    case OpPrefetch(_, ids) => GuessesGoThrough(t, p, s, last, ids);
    case OpTrim(_, blocks) => if s !in t.trimmed { HandOverGoesThrough(t, p, s, |blocks|); }
    case OpIngest(_, blocks, _) => if s !in t.trimmed { HandOverGoesThrough(t, p, s, |blocks|); }
    case _ =>
  }

  lemma SpilledTurn<T>(t: Tier<T>, p: Plain<T>, s: nat, last: Last, op: Op<T>)
    requires Decoding(t, p, s, last) && !t.writeThrough && Turn(t, p, s, last, op)
    ensures Step(t, op).Ok?
  {
    hide StoredBut, TracksBut, AccountedTo, PoolOk, AllSized, Lru.Valid;
    hide Tailed, RequestFits, Step, PlainStep, Enough, Next, Again;
    HabitProper(t, p, s, last, op);
    FewBlocksEnough(t, p, s, op);
    WriteBackOkIff(t, p, s, op);
  }

  // ------------------------------------------------------------------ the last block stays

  /** What was just written is last in line. */
  lemma NewestNotNext(l: Lru, key: Key)
    requires l.Valid() && l.capacity > 1 && Add(l, key, {}).Some?
    ensures NotNext(Add(l, key, {}).value.lru, key)
  {
    AddValid(l, key, {});
    var m := Add(l, key, {}).value.lru;
    assert m.order[|m.order| - 1] == key;
  }

  /** A write into the arena that mirrors its block, or leaves it without one, and leaves all other mirrors alone. */
  lemma WriteKeeps<T>(t: Tier<T>, p: Plain<T>, s: nat, last: Last, key: Key, u: Tier<T>, kv: KV<T>, full: bool)
    requires Decoding(t, p, s, last) && (last.Live? ==> last.key == key)
    requires full || Next(p, last, key)
    requires key in u.lru.slot && u.writeThrough == t.writeThrough
    requires t.writeThrough ==> u.hostSlots.Keys == t.hostSlots.Keys + if full then {key} else {}
    requires Add(t.lru, key, {}).Some? && u.lru == Add(t.lru, key, {}).value.lru
    ensures Tailed(u, p[key := kv], if full then Full(key) else Live(key))
    ensures t.lru.capacity > 1 ==> NotNext(u.lru, key)
  {
    hide TracksBut, AccountedTo, PoolOk, Lru.Valid, AllSized, ArenaHolds, HostHolds;
    if key !in p { FreshNowhere(t, p, key); }
    if t.lru.capacity > 1 { NewestNotNext(t.lru, key); }
  }

  lemma FillKeeps<T>(t: Tier<T>, p: Plain<T>, s: nat, last: Last, key: Key, kv: KV<T>)
    requires Decoding(t, p, s, last) && Turn(t, p, s, last, OpFill(key, kv)) && Fill(t, key, kv).Ok?
    ensures Tailed(Fill(t, key, kv).state, p[key := kv], Full(key))
  {
    hide StoredBut, TracksBut, AccountedTo, PoolOk, Lru.Valid, AllSized, Place, Mirror, Tailed;
    PlaceShaped(t, key, {});
    PlaceLru(t, key, {});
    PlaceHostSlots(t, key, {});
    var Placed(u, slot) := Place(t, key, {});
    var w := Written(u, slot, kv, key.block);
    if t.writeThrough { MirrorFails(w, key, kv); }
    WriteKeeps(t, p, s, last, key, Fill(t, key, kv).state, kv, true);
  }

  lemma LiveKeeps<T>(t: Tier<T>, p: Plain<T>, s: nat, last: Last, key: Key, kv: KV<T>)
    requires Decoding(t, p, s, last) && Turn(t, p, s, last, OpLive(key, kv)) && WriteLive(t, key, kv).Ok?
    ensures Tailed(WriteLive(t, key, kv).state, p[key := kv], Live(key))
    ensures t.lru.capacity > 1 ==> NotNext(WriteLive(t, key, kv).state.lru, key)
  {
    hide StoredBut, TracksBut, AccountedTo, PoolOk, Lru.Valid, AllSized, Place, Tailed;
    PlaceShaped(t, key, {});
    PlaceLru(t, key, {});
    PlaceHostSlots(t, key, {});
    WriteKeeps(t, p, s, last, key, WriteLive(t, key, kv).state, kv, false);
  }

  lemma AppendKeeps<T>(t: Tier<T>, p: Plain<T>, s: nat, last: Last, key: Key, offset: nat, kRow: T, vRow: T)
    requires Shaped(t) && offset < t.blockSize && Decoding(t, p, s, last) && Next(p, last, key)
    requires AppendAt(t, key, offset, kRow, vRow).Ok?
    ensures Tailed(AppendAt(t, key, offset, kRow, vRow).state, p[key := Grown(p, key, kRow, vRow, offset)],
                   if offset == t.blockSize - 1 then Full(key) else Live(key))
    ensures t.lru.capacity > 1 ==> NotNext(AppendAt(t, key, offset, kRow, vRow).state.lru, key)
  {
    hide StoredBut, TracksBut, AccountedTo, PoolOk, Lru.Valid, Place, Mirror, WithRow, Tailed, Grown, NotNext;
    PlaceShaped(t, key, {});
    PlaceLru(t, key, {});
    PlaceHostSlots(t, key, {});
    var Placed(u, slot) := Place(t, key, {});
    assert Sized(u.gpu[slot], u.blockSize);
    var kv, full := WithRow(u.gpu[slot], offset, kRow, vRow), offset == t.blockSize - 1;
    if t.writeThrough { MirrorFails(Written(u, slot, kv, key.block), key, kv); }
    WriteKeeps(t, p, s, last, key, AppendAt(t, key, offset, kRow, vRow).state, Grown(p, key, kRow, vRow, offset), full);
  }

  lemma {:induction false} PassesKeepMirrors<T>(t: Tier<T>, keys: seq<Key>)
    requires Shaped(t)
    ensures EnsureAll(t, keys).Ok? ==> EnsureAll(t, keys).state.hostSlots == t.hostSlots
    ensures Prefetch(t, keys).Ok? ==> Prefetch(t, keys).state.hostSlots == t.hostSlots
    decreases |keys|
  {
    hide PoolOk, Lru.Valid, AllSized, EnsureOne;
    if keys != [] && EnsureOne(t, keys[0]).Ok? {
      var u := EnsureOne(t, keys[0]).state;
      ReloadLeaves(t, keys[0]);
      EnsureOneShaped(t, keys[0]);
      DemotedShaped(u, keys[0]);
      PassesKeepMirrors(u, keys[1..]);
      PassesKeepMirrors(Demoted(u, keys[0]), keys[1..]);
    }
  }

  lemma RequestKeeps<T>(t: Tier<T>, p: Plain<T>, s: nat, last: Last, ids: seq<nat>, keep: seq<nat>)
    requires Decoding(t, p, s, last) && Turn(t, p, s, last, OpEnsure(s, ids, keep))
    requires EnsureResident(t, s, ids, keep).Ok? && EnsureResident(t, s, ids, keep).state.writeThrough == t.writeThrough
    ensures Tailed(EnsureResident(t, s, ids, keep).state, p, if last.Live? then last else Nothing)
  {
    hide StoredBut, TracksBut, AccountedTo, PoolOk, Lru.Valid, AllSized, EnsureAll, Reload, TouchAll, Spared;
    var idKeys, keepKeys := KeysOf(s, ids), KeysOf(s, keep);
    RepresentsShaped(t, p);
    RequestReadsBack(t, p, s, last, ids, keep);
    TouchedShaped(t, idKeys, keepKeys);
    PassesKeepMirrors(Touched(t, idKeys, keepKeys), idKeys);
  }

  lemma GuessesKeep<T>(t: Tier<T>, p: Plain<T>, s: nat, last: Last, ids: seq<nat>)
    requires Decoding(t, p, s, last) && Turn(t, p, s, last, OpPrefetch(s, ids))
    requires Prefetch(t, KeysOf(s, ids)).Ok? && Prefetch(t, KeysOf(s, ids)).state.writeThrough == t.writeThrough
    ensures Tailed(Prefetch(t, KeysOf(s, ids)).state, p, if last.Live? then last else Nothing)
  {
    hide StoredBut, TracksBut, AccountedTo, PoolOk, Lru.Valid, AllSized, Prefetch, Speculate;
    RepresentsShaped(t, p);
    var keys := KeysOf(s, ids);
    PassesKeepMirrors(t, keys);
    PrefetchIsSpeculation(t, s, keys);
    if last.Live? && t.writeThrough {
      VictimsIff(t.lru, keys, ProtectedKeys(t, s), t.prefetchTouch, last.key);
      UntakenStays(t.lru, keys, ProtectedKeys(t, s), t.prefetchTouch, last.key);
    }
  }

  lemma PromptMirrored<T>(t: Tier<T>, s: nat, blocks: seq<KV<T>>)
    requires Shaped(t) && t.writeThrough && t.lru.slot == map[] && s !in t.trimmed
    requires AllSized(blocks, t.blockSize) && Trim(t, s, blocks).Ok?
    ensures WithBlocks(map[], s, blocks, 0).Keys <= Trim(t, s, blocks).state.hostSlots.Keys
  {
    hide PoolOk, Lru.Valid, AllSized, Trim;
    var q := WithBlocks(map[], s, blocks, 0);
    forall x | x in q ensures x in Trim(t, s, blocks).state.hostSlots {
      WithBlocksKeys(map[], s, blocks, 0, x);
      assert x == Key(s, x.block);
      TrimSplits(t, s, blocks, x.block);
    }
  }

  lemma TrimKeeps<T>(t: Tier<T>, p: Plain<T>, s: nat, last: Last, blocks: seq<KV<T>>)
    requires Decoding(t, p, s, last) && Turn(t, p, s, last, OpTrim(s, blocks)) && Trim(t, s, blocks).Ok?
    ensures Tailed(Trim(t, s, blocks).state, PlainStep(t, p, OpTrim(s, blocks)),
            LastAfter(t, s, last, OpTrim(s, blocks)))
  {
    hide StoredBut, TracksBut, AccountedTo, PoolOk, Lru.Valid, AllSized, Trim, WithBlocks;
    RepresentsShaped(t, p);
    if s in t.trimmed {
      SecondTrim(t, s, blocks);
    } else {
      NothingStored(t, p);
      TrimShaped(t, s, blocks);
      if t.writeThrough { PromptMirrored(t, s, blocks); }
      if blocks != [] {
        TrimSplits(t, s, blocks, |blocks| - 1);
        WithBlocksKeys(p, s, blocks, 0, Key(s, |blocks| - 1));
      }
    }
  }

  lemma StagedLast<T>(t: Tier<T>, q: Plain<T>, key: Key, tail: KV<T>)
    requires Represents(t, q) && key !in q && |tail.k| == |tail.v| <= t.blockSize && Stage(t, key, tail).Ok?
    requires t.writeThrough ==> q.Keys <= t.hostSlots.Keys
    ensures t.lru.capacity > 1 ==> NotNext(Stage(t, key, tail).state.lru, key)
    ensures Tailed(Stage(t, key, tail).state, q[key := tail], Live(key))
  {
    hide PoolOk, Lru.Valid, ArenaHolds, HostHolds, Place, Over, AllSized;
    FreshNowhere(t, q, key);
    PlaceShaped(t, key, {});
    PlaceLru(t, key, {});
    PlaceHostSlots(t, key, {});
    if t.lru.capacity > 1 { NewestNotNext(t.lru, key); }
  }

  lemma IngestKeeps<T>(t: Tier<T>, p: Plain<T>, s: nat, last: Last, blocks: seq<KV<T>>, tail: KV<T>)
    requires Decoding(t, p, s, last) && Turn(t, p, s, last, OpIngest(s, blocks, tail))
    requires Ingest(t, s, blocks, tail).Ok?
    ensures Tailed(Ingest(t, s, blocks, tail).state, PlainStep(t, p, OpIngest(s, blocks, tail)),
                  LastAfter(t, s, last, OpIngest(s, blocks, tail)))
  {
    hide StoredBut, TracksBut, AccountedTo, PoolOk, Lru.Valid, AllSized, Trim, WithBlocks, Stage;
    RepresentsShaped(t, p);
    if s in t.trimmed {
      SecondIngest(t, s, blocks, tail);
    } else {
      NothingStored(t, p);
      TrimShaped(t, s, blocks);
      TrimStored(t, p, s, blocks);
      if t.writeThrough { PromptMirrored(t, s, blocks); }
      if |tail.k| > 0 {
        WithBlocksKeys(p, s, blocks, 0, Key(s, |blocks|));
        StagedLast(Trim(t, s, blocks).state, WithBlocks(p, s, blocks, 0), Key(s, |blocks|), tail);
      }
    }
  }

  lemma ReleaseKeeps<T>(t: Tier<T>, p: Plain<T>, s: nat, hostKeys: seq<Key>)
    requires Tracks(t, s) && Represents(t, p) && ListsCopies(hostKeys, Backing(t), s)
    ensures Forget(p, s) == map[] && Tailed(Release(t, s, hostKeys), Forget(p, s), Nothing)
  {
    hide StoredBut, PoolOk, Lru.Valid, AllSized, Release;
    KnownKeys(t, p);
    forall x | x in p ensures x.seqId == s { assert x in t.lru.slot.Keys + Backing(t).Keys; }
    assert Forget(p, s).Keys == {};
  }

  lemma TurnKeeps<T>(t: Tier<T>, p: Plain<T>, s: nat, last: Last, op: Op<T>)
    requires Decoding(t, p, s, last) && Turn(t, p, s, last, op)
    requires Step(t, op).Ok? && SameSize(t, Step(t, op).state)
    ensures Tailed(Step(t, op).state, PlainStep(t, p, op), LastAfter(t, s, last, op))
  {
    hide StoredBut, TracksBut, AccountedTo, PoolOk, Lru.Valid, AllSized;
    hide ListsCopies, Roomy, RequestFits, Next, Again, Grown, Forget;
    hide Fill, WriteLive, AppendAt, EnsureResident, Prefetch, Trim, Ingest, Release, WithBlocks, WithPrompt;
    match op
    case OpFill(key, kv) => FillKeeps(t, p, s, last, key, kv);
    case OpLive(key, kv) => LiveKeeps(t, p, s, last, key, kv);
    case OpAppend(_, pos, kRow, vRow) =>
      AppendKeeps(t, p, s, last, Key(s, pos / t.blockSize), pos % t.blockSize, kRow, vRow);
    case OpEnsure(_, ids, keep) => RequestKeeps(t, p, s, last, ids, keep);
    case OpPrefetch(_, ids) => GuessesKeep(t, p, s, last, ids);
    case OpPrevSelected(_, _) =>
    case OpTrim(_, blocks) => TrimKeeps(t, p, s, last, blocks);
    case OpIngest(_, blocks, tail) => IngestKeeps(t, p, s, last, blocks, tail);
    case OpRelease(_, hostKeys) => ReleaseKeeps(t, p, s, hostKeys);
  }

  // ------------------------------------------------------------------ whole runs

  /** One turn of the loop succeeds and leaves the layer ready for the next. */
  lemma TurnSucceeds<T>(t: Tier<T>, p: Plain<T>, s: nat, last: Last, op: Op<T>)
    requires Decoding(t, p, s, last) && Turn(t, p, s, last, op)
    ensures Step(t, op).Ok?
    ensures Decoding(Step(t, op).state, PlainStep(t, p, op), s, LastAfter(t, s, last, op))
  {
    hide StoredBut, TracksBut, AccountedTo, Tailed, Step;
    hide PlainStep, Disciplined, WellShaped, HandOverFirst, Unspilled, Concerns;
    hide PoolOk, Lru.Valid, AllSized, Habit, Roomy, LastAfter;
    if t.writeThrough { MirroredTurn(t, p, s, last, op); } else { SpilledTurn(t, p, s, last, op); }
    HabitProper(t, p, s, last, op);
    StepRefines(t, p, op);
    StepTracks(t, s, op);
    StepConserves(t, p, op);
    StepKeepsSize(t, op);
    TurnKeeps(t, p, s, last, op);
  }

  /**
   What a caller sees and does over a run: the layer, the blocks it stored, the sequence it serves and its last block.
   */
  datatype Moment<T> = Moment(t: Tier<T>, p: Plain<T>, s: nat, last: Last)

  /** One turn, whatever the layer makes of it. Another sequence may follow a release. */
  ghost predicate Turned<T>(a: Moment<T>, op: Op<T>, b: Moment<T>) {
    && Turn(a.t, a.p, a.s, a.last, op)
    && b.t == Step(a.t, op).state && b.p == PlainStep(a.t, a.p, op) && b.last == LastAfter(a.t, a.s, a.last, op)
    && (b.s == a.s || op.OpRelease?)
  }

  ghost predicate Ready<T>(a: Moment<T>) { Decoding(a.t, a.p, a.s, a.last) }

  lemma TurnedReady<T>(a: Moment<T>, op: Op<T>, b: Moment<T>)
    requires Ready(a) && Turned(a, op, b)
    ensures Step(a.t, op) == Ok(b.t) && Ready(b)
  {
    hide StoredBut, TracksBut, AccountedTo, Tailed, PlainStep, Habit, Roomy, LastAfter, Release;
    hide PoolOk, Lru.Valid, AllSized, Fill, WriteLive, AppendAt, EnsureAll, Prefetch, Trim, Ingest, ListsCopies;
    TurnSucceeds(a.t, a.p, a.s, a.last, op);
    if b.s != a.s { ReleaseTracks(a.t, a.s, op.hostKeys, b.s); }
  }

  lemma NewReady<T>(a: Moment<T>)
    requires Shaped(a.t) && New(a.t) && a.p == map[] && a.last == Nothing && a.t.lru.capacity > 0
    ensures Ready(a)
  {
    hide StoredBut, TracksBut, AccountedTo, New;
    NewAccounted(a.t);
    NewTracks(a.t, a.s);
  }

  /**
   The decode loop over whole runs from a new layer, in either mode: every operation succeeds, the layer represents what
   was stored, and the live block is in the arena at every moment. No step is assumed to succeed and no block to be
   resident.
   */
  lemma {:induction false} DecodeLoopNeverRaises<T>(run: seq<Moment<T>>, ops: seq<Op<T>>, n: nat)
    requires |run| == |ops| + 1 && n <= |ops|
    requires Shaped(run[0].t) && New(run[0].t) && run[0].p == map[] && run[0].last == Nothing &&
             run[0].t.lru.capacity > 0
    requires forall i :: 0 <= i < |ops| ==> Turned(run[i], ops[i], run[i + 1])
    ensures Ready(run[n])
    ensures n < |ops| ==> Shaped(run[n].t) && WellShaped(run[n].t, ops[n]) && Step(run[n].t, ops[n]) == Ok(run[n + 1].t)
    decreases n
  {
    hide Ready, Step, PlainStep, Habit, Roomy, LastAfter, WellShaped, New, Shaped;
    if n == 0 {
      NewReady(run[0]);
    } else {
      DecodeLoopNeverRaises(run, ops, n - 1);
      TurnedReady(run[n - 1], ops[n - 1], run[n]);
    }
    if n < |ops| { TurnedReady(run[n], ops[n], run[n + 1]); }
  }

  /**
   The live block is never evicted while it is the tail, and after every request all that was selected reads back beside
   it.
   */
  lemma LiveBlockStays<T>(run: seq<Moment<T>>, ops: seq<Op<T>>, n: nat)
    requires |run| == |ops| + 1 && n < |ops|
    requires Shaped(run[0].t) && New(run[0].t) && run[0].p == map[] && run[0].last == Nothing &&
             run[0].t.lru.capacity > 0
    requires forall i :: 0 <= i < |ops| ==> Turned(run[i], ops[i], run[i + 1])
    ensures run[n].last.Live? ==> ReadsBack(run[n].t, run[n].p, run[n].last.key)
    ensures ops[n].OpEnsure? ==> forall b :: b in ops[n].ids ==> ReadsBack(run[n + 1].t, run[n].p, Key(run[n].s, b))
  {
    hide StoredBut, TracksBut, AccountedTo, PoolOk, Lru.Valid, AllSized;
    hide New, EnsureResident, PlainStep, LastAfter, ReadsBack, Roomy;
    var a := run[n];
    DecodeLoopNeverRaises(run, ops, n);
    if a.last.Live? { LiveReads(a.t, a.p, a.last.key); }
    assert Turned(a, ops[n], run[n + 1]);
    if ops[n].OpEnsure? { RequestReadsBack(a.t, a.p, a.s, a.last, ops[n].ids, ops[n].keep); }
  }

  lemma LiveReads<T>(t: Tier<T>, p: Plain<T>, key: Key)
    requires Represents(t, p) && key in t.lru.slot
    ensures ReadsBack(t, p, key)
  {
    ResidentRows(t, p, key);
  }
}
