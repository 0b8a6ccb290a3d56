/**
 Guesses in the decode loop. Exactly which prefetches a loop can afford,
     the three ways a prefetch goes wrong (before the
 prompt is handed over, with the arena filled exactly, and by naming the block that is still live), and habits that
 keep clear of them without looking into the layer.
 */
module TierGuesses {
  import opened Lists
  import opened SlotMap
  import opened WorkingSet
  import opened Speculation
  import opened TierModel
  import opened TierTransparency
  import opened TierPlacement
  import opened TierFailure
  import opened TierSafety
  import opened TierAccounts
  import opened TierSuccess
  import opened TierService
  import opened TierDecodeLoop

  // ------------------------------------------------------------------ exactly which guesses go well

  /** A prefetch goes well in the loop: it returns, and the last block is where it must be. */
  ghost predicate GoesWell<T>(t: Tier<T>, p: Plain<T>, s: nat, last: Last, ids: seq<nat>)
    requires Shaped(t)
  {
    var r := Prefetch(t, KeysOf(s, ids));
    r.Ok? && Tailed(r.state, p, if last.Live? then last else Nothing)
  }

  /**
   From any moment of the loop, under either mode, any ordering and with or without trust: a prefetch goes well if and
   only if everything guessed was stored and the guesses spare the live block.
   */
  lemma GuessesGoWellIff<T>(t: Tier<T>, p: Plain<T>, s: nat, last: Last, ids: seq<nat>)
    requires Decoding(t, p, s, last) && Roomy(t, p, OpPrefetch(s, ids))
    ensures Shaped(t) && (GoesWell(t, p, s, last, ids) <==> Habit(t, p, s, last, OpPrefetch(s, ids)))
  {
    hide StoredBut, TracksBut, AccountedTo, PoolOk, AllSized, Lru.Valid, Prefetch, Speculate, Takes;
    RepresentsShaped(t, p);
    var keys, protected := KeysOf(s, ids), ProtectedKeys(t, s);
    AllHeld(p.Keys, s, ids);
    PrefetchOkIff(t, p, s, keys);
    if Habit(t, p, s, last, OpPrefetch(s, ids)) {
      TurnSucceeds(t, p, s, last, OpPrefetch(s, ids));
    }
    if GoesWell(t, p, s, last, ids) && last.Live? {
      if t.writeThrough {
        VictimsIff(t.lru, keys, protected, t.prefetchTouch, last.key);
      } else {
        PrefetchIsSpeculation(t, s, keys);
      }
    }
  }

  // ------------------------------------------------------------------ three ways to go wrong

  /**
   Before its prompt is handed over nothing of a sequence is stored, whatever others have cached: any guess raises and
   leaves the layer as it was.
   */
  lemma GuessBeforeHandOver<T>(t: Tier<T>, p: Plain<T>, s: nat, ids: seq<nat>)
    requires Represents(t, p) && ids != [] && forall b :: b in ids ==> Key(s, b) !in p
    ensures Prefetch(t, KeysOf(s, ids)) == Err(NotFound, t)
  {
    hide PoolOk, AllSized, Lru.Valid, ArenaHolds, HostHolds;
    FreshNowhere(t, p, Key(s, ids[0]));
  }

  /**
   A guess that names the live block, as happens when the block completed in this step is guessed for a layer where it
   is still live: the guess hits and leaves it first in line, and the next guess that misses takes it. No slot left
   over helps. Under write-through that raises; under write-back the live block leaves the arena.
   */
  lemma NamedGuessTakesLive<T>(t: Tier<T>, p: Plain<T>, s: nat, live: nat, x: nat)
    requires Decoding(t, p, s, Live(Key(s, live))) && !t.mixture && !t.prefetchTouch && t.lru.free == []
    requires Key(s, x) in p && Key(s, x) !in t.lru.slot && (t.writeThrough || t.cpuFree != [])
    ensures Shaped(t)
    ensures var r := Prefetch(t, KeysOf(s, [live, x]));
            Key(s, live) !in r.state.lru.slot && if t.writeThrough then r.Err? && r.error == NoBackup else r.Ok?
  {
    hide StoredBut, PoolOk, Lru.Valid, AllSized, InStep, AccountedTo;
    RepresentsShaped(t, p);
    KnownKeys(t, p);
    var a, key := Key(s, live), Key(s, x);
    var u := Demoted(t.(lru := Touch(t.lru, a)), a);
    assert u.lru.order[0] == a;
    DemotedLive(t, p, s, a);
    assert KeysOf(s, [live, x]) == [a, key];
    TwoGuesses(t, a, key);
    NextGuess(u, p, s, a, key);
  }

  lemma DemotedLive<T>(t: Tier<T>, p: Plain<T>, s: nat, a: Key)
    requires Tracks(t, s) && Represents(t, p) && a in t.lru.slot
    ensures var u := Demoted(t.(lru := Touch(t.lru, a)), a); Tracks(u, s) && Represents(u, p)
  {
    hide PoolOk, Lru.Valid, AllSized, InStep, ArenaHolds, HostHolds;
    TouchValid(t.lru, a);
    TouchValid(Touch(t.lru, a), a);
    RecencyOnly(t, p, s, Touch(t.lru, a));
    RecencyOnly(t, p, s, Demote(Touch(t.lru, a), a));
  }

  lemma TwoGuesses<T>(t: Tier<T>, a: Key, key: Key)
    requires Shaped(t) && a in t.lru.slot
    ensures var u := Demoted(t.(lru := Touch(t.lru, a)), a);
            && Shaped(u)
            && Raised(Prefetch(t, [a, key])) == Raised(EnsureOne(u, key))
            && Prefetch(t, [a, key]).state.lru.slot == EnsureOne(u, key).state.lru.slot
  {
    hide PoolOk, Lru.Valid, AllSized;
    var ks := [a, key];
    TouchValid(t.lru, a);
    var v := t.(lru := Touch(t.lru, a));
    DemotedShaped(v, a);
    var u := Demoted(v, a);
    assert EnsureOne(t, a) == Ok(v);
    assert ks[1..] == [key] && [key][1..] == [];
    hide EnsureOne;
    if EnsureOne(u, key).Ok? {
      var w := EnsureOne(u, key).state;
      EnsureOneShaped(u, key);
      DemotedShaped(w, key);
      assert Prefetch(Demoted(w, key), []) == Ok(Demoted(w, key));
    }
  }

  lemma NextGuess<T>(u: Tier<T>, p: Plain<T>, s: nat, a: Key, key: Key)
    requires Tracks(u, s) && Represents(u, p) && !u.mixture && u.lru.free == [] && u.lru.order != [] &&
             u.lru.order[0] == a
    requires key.seqId == s && key in Backing(u) && key !in u.lru.slot
    requires if u.writeThrough then a !in u.hostSlots else u.cpuFree != []
    ensures var r := EnsureOne(u, key);
            a !in r.state.lru.slot && if u.writeThrough then r.Err? && r.error == NoBackup else r.Ok?
  {
    hide PoolOk, Lru.Valid, AllSized, InStep, ArenaHolds, HostHolds, EnsureOne;
    ReloadOkIff(u, key);
    FrontLeaves(u, key);
    RowsReadRight(u, s, key, {});
    ReloadRefusedIff(u, key);
  }

  lemma {:induction false} HeldRequest<T>(t: Tier<T>, s: nat, keys: seq<Key>)
    requires Shaped(t) && forall k :: k in keys ==> k in t.lru.slot && k.seqId == s
    ensures EnsureAll(t, keys) == Ok(t.(lru := Reload(t.lru, keys, ProtectedKeys(t, s)).lru))
    decreases |keys|
  {
    hide PoolOk, Lru.Valid, AllSized;
    if keys != [] {
      assert keys[0] in keys && forall k :: k in keys[1..] ==> k in keys;
      TouchValid(t.lru, keys[0]);
      HeldRequest(t.(lru := Touch(t.lru, keys[0])), s, keys[1..]);
    }
  }

  lemma RecencyOnly<T>(t: Tier<T>, p: Plain<T>, s: nat, l: Lru)
    requires Tracks(t, s) && Represents(t, p) && l.Valid() && l.slot == t.lru.slot && l.capacity == t.lru.capacity
    ensures Tracks(t.(lru := l), s) && Represents(t.(lru := l), p)
  {
    hide PoolOk, Lru.Valid, AllSized, InStep, ArenaHolds, HostHolds;
  }

  /**
   The exact fit: a request for what is there, beside the live block, changes recency only and leaves the live block
   first.
   */
  lemma ExactFit<T>(t: Tier<T>, p: Plain<T>, s: nat, ids: seq<nat>, live: nat, guess: Key) returns (l: Lru)
    requires Tracks(t, s) && Represents(t, p) && t.lru.free == [] && live !in ids && guess !in t.lru.slot
    requires t.lru.slot.Keys == Elems(KeysOf(s, ids)) + {Key(s, live)}
    ensures l.Valid() && l.slot == t.lru.slot && l.capacity == t.lru.capacity && l.free == []
    ensures l.order != [] && l.order[0] == Key(s, live)
    ensures EnsureResident(t, s, ids, [live]) == Ok(t.(lru := l))
  {
    hide PoolOk, Lru.Valid, AllSized, InStep, ArenaHolds, HostHolds, Reload, TouchAll, EnsureAll, Add;
    var idKeys, keepKeys, protected := KeysOf(s, ids), KeysOf(s, [live]), ProtectedKeys(t, s);
    assert keepKeys == [Key(s, live)];
    assert Key(s, live) !in idKeys;
    forall k | k in idKeys ensures k in t.lru.slot { assert k in Elems(idKeys); }
    TouchedShaped(t, idKeys, keepKeys);
    TouchAllValid(t.lru, keepKeys);
    TouchAllValid(TouchAll(t.lru, keepKeys), idKeys);
    var u := Touched(t, idKeys, keepKeys);
    HeldRequest(u, s, idKeys);
    HeldReload(u.lru, idKeys, protected);
    ExactFitExposes(t.lru, idKeys, Key(s, live), protected, guess);
    l := EnsurePass(t.lru, idKeys, keepKeys, protected).lru;
    ReloadCapacity(u.lru, idKeys, protected);
  }

  lemma ReloadCapacity(l: Lru, ks: seq<Key>, protected: set<Key>)
    requires l.Valid() && forall k :: k in ks ==> k in l.slot
    ensures Reload(l, ks, protected).lru.capacity == l.capacity
  {
    HeldReload(l, ks, protected);
    SlotsHeld(l);
    SlotsHeld(Reload(l, ks, protected).lru);
  }

  /**
   When the step's blocks fill the arena exactly, the next guess that misses evicts the live block: under write-through
   that raises, since it has no mirror, and under write-back it leaves the arena.
   */
  lemma ExactFitGuessTakesLive<T>(t: Tier<T>, p: Plain<T>, s: nat, ids: seq<nat>, live: nat, guess: nat)
    requires Tracks(t, s) && Represents(t, p) && t.lru.free == [] && live !in ids && !t.mixture
    requires t.lru.slot.Keys == Elems(KeysOf(s, ids)) + {Key(s, live)}
    requires Key(s, guess) !in t.lru.slot && Key(s, guess) in Backing(t)
    requires if t.writeThrough then Key(s, live) !in t.hostSlots else t.cpuFree != []
    ensures EnsureResident(t, s, ids, [live]).Ok? && Shaped(EnsureResident(t, s, ids, [live]).state)
    ensures var r := EnsureOne(EnsureResident(t, s, ids, [live]).state, Key(s, guess));
            Key(s, live) !in r.state.lru.slot && if t.writeThrough then r.Err? && r.error == NoBackup else r.Ok?
  {
    hide PoolOk, Lru.Valid, AllSized, InStep, ArenaHolds, HostHolds, EnsureResident, EnsureOne, Add;
    var l := ExactFit(t, p, s, ids, live, Key(s, guess));
    RecencyOnly(t, p, s, l);
    NextGuess(t.(lru := l), p, s, Key(s, live), Key(s, guess));
  }

  /** Whether it raises or not, a reload into a full arena without protection takes out what is first in line. */
  lemma FrontLeaves<T>(t: Tier<T>, key: Key)
    requires Shaped(t) && !t.mixture && t.lru.free == [] && t.lru.order != [] && key !in t.lru.slot && key in Backing(t)
    ensures t.lru.order[0] !in EnsureOne(t, key).state.lru.slot
  {
    hide PoolOk, AllSized, Spill, Lru.Valid;
    TakenShaped(t, key);
    var t0 := t.(cpuSlots := t.cpuSlots - {key});
    AddValid(t.lru, key, {});
    var a := Add(t.lru, key, {}).value;
    assert a.evicted == Some(t.lru.order[0]);
    AddMoved(t.lru, key, a);
    SpillLru(t0.(lru := a.lru), a.evicted.value, a.slot);
  }

  lemma SpillLru<T>(t: Tier<T>, victim: Key, slot: nat)
    requires Shaped(t) && slot < |t.gpu|
    ensures Spill(t, victim, slot).state.lru == t.lru
  {
    hide PoolOk, AllSized, Lru.Valid;
  }

  // ------------------------------------------------------------------ habits that keep clear of them

  /** The layers the habits are for: plain LRU, guesses not trusted, room beside the live block. */
  ghost predicate MayGuess<T>(t: Tier<T>) {
    !t.mixture && !t.prefetchTouch && t.lru.capacity > 1
  }

  /** Unless it was just named by a guess, the live block is not first in line. */
  ghost predicate Safe<T>(t: Tier<T>, last: Last, exposed: bool) {
    last.Live? && !exposed ==> NotNext(t.lru, last.key)
  }

  /**
   Habits that need no look at the layer: every request leaves a slot over, the live block is guessed last if at all,
   and once it was guessed it is written or kept before the next guesses.
   */
  ghost predicate Cautious<T>(t: Tier<T>, p: Plain<T>, s: nat, last: Last, exposed: bool, op: Op<T>) {
    && Shaped(t) && Concerns(op, s) && WellShaped(t, op) && Roomy(t, p, op)
    && match op
       case OpPrefetch(_, ids) =>
         && (forall b :: b in ids ==> Key(s, b) in p)
         && (last.Live? && ids != [] ==> !exposed && last.key !in KeysOf(s, ids)[..|ids| - 1])
       case OpEnsure(_, ids, keep) =>
         && Habit(t, p, s, last, op)
         && |Need(t.lru, KeysOf(s, ids), KeysOf(s, keep))| < t.lru.capacity
       case _ => Habit(t, p, s, last, op)
  }

  /** Whether the live block was the last thing guessed. */
  ghost predicate ExposedAfter<T>(t: Tier<T>, s: nat, last: Last, exposed: bool, op: Op<T>) {
    match op
    case OpPrefetch(_, ids) => if ids == [] then exposed else last == Live(Key(s, ids[|ids| - 1]))
    case OpPrevSelected(_, _) => exposed
    case OpTrim(_, _) => s in t.trimmed && exposed
    case OpIngest(_, _, _) => s in t.trimmed && exposed
    case _ => false
  }

  lemma CautiousSpares<T>(t: Tier<T>, keys: seq<Key>, live: Key)
    requires Shaped(t) && MayGuess(t) && live in t.lru.slot && keys != [] && NotNext(t.lru, live)
    requires live !in keys[..|keys| - 1]
    ensures SparesLive(t, keys, {}, live)
  {
    hide PoolOk, AllSized, Lru.Valid, Speculate, Takes;
    GuessesSpare(t.lru, keys, live);
    VictimsIff(t.lru, keys, {}, false, live);
    UntakenStays(t.lru, keys, {}, false, live);
  }

  lemma NothingSpares<T>(t: Tier<T>, protected: set<Key>, live: Key)
    requires t.lru.Valid() && live in t.lru.slot
    ensures SparesLive(t, [], protected, live)
  {
    hide Lru.Valid;
    NothingTaken(t.lru, protected, t.prefetchTouch, live);
  }

  /** Such a turn is one of the loop's. */
  lemma CautiousIsTurn<T>(t: Tier<T>, p: Plain<T>, s: nat, last: Last, exposed: bool, op: Op<T>)
    requires Decoding(t, p, s, last) && MayGuess(t) && Safe(t, last, exposed) && Cautious(t, p, s, last, exposed, op)
    ensures Turn(t, p, s, last, op)
  {
    hide StoredBut, TracksBut, AccountedTo, PoolOk, AllSized, Lru.Valid, SparesLive, Roomy, NotNext;
    if op.OpPrefetch? && last.Live? {
      if op.ids == [] {
        assert KeysOf(s, op.ids) == [];
        NothingSpares(t, ProtectedKeys(t, s), last.key);
      } else {
        CautiousSpares(t, KeysOf(s, op.ids), last.key);
      }
    }
  }

  lemma SlackSafe<T>(t: Tier<T>, p: Plain<T>, s: nat, last: Last, ids: seq<nat>, keep: seq<nat>)
    requires Decoding(t, p, s, last) && last.Live? && Habit(t, p, s, last, OpEnsure(s, ids, keep))
    requires |Need(t.lru, KeysOf(s, ids), KeysOf(s, keep))| < t.lru.capacity
    requires Shaped(t) && EnsureResident(t, s, ids, keep).Ok?
    ensures NotNext(EnsureResident(t, s, ids, keep).state.lru, last.key)
  {
    hide StoredBut, TracksBut, AccountedTo, PoolOk, Lru.Valid, AllSized, EnsureAll, Reload, TouchAll, Spared;
    var idKeys, keepKeys := KeysOf(s, ids), KeysOf(s, keep);
    TouchedShaped(t, idKeys, keepKeys);
    EnsureAllIsReload(Touched(t, idKeys, keepKeys), s, idKeys);
    assert last.key in Elems(keepKeys) && last.key in Need(t.lru, idKeys, keepKeys);
    SlackSpares(t.lru, idKeys, keepKeys, ProtectedKeys(t, s), last.key);
  }

  lemma GuessSafe<T>(t: Tier<T>, p: Plain<T>, s: nat, last: Last, exposed: bool, ids: seq<nat>)
    requires Decoding(t, p, s, last) && MayGuess(t) && last.Live? && Safe(t, last, exposed)
    requires Cautious(t, p, s, last, exposed, OpPrefetch(s, ids)) && Prefetch(t, KeysOf(s, ids)).Ok?
    ensures Safe(Prefetch(t, KeysOf(s, ids)).state, last, ExposedAfter(t, s, last, exposed, OpPrefetch(s, ids)))
  {
    hide StoredBut, TracksBut, AccountedTo, PoolOk, AllSized, Lru.Valid, Prefetch, Speculate, NotNext;
    var keys := KeysOf(s, ids);
    PrefetchIsSpeculation(t, s, keys);
    if ids == [] {
      assert keys == [];
      NothingGuessed(t.lru);
    } else {
      GuessesSpare(t.lru, keys, last.key);
    }
  }

  lemma IngestSafe<T>(t: Tier<T>, p: Plain<T>, s: nat, blocks: seq<KV<T>>, tail: KV<T>)
    requires Represents(t, p) && p == map[] && t.lru.capacity > 1 && s !in t.trimmed
    requires AllSized(blocks, t.blockSize) && 0 < |tail.k| == |tail.v| < t.blockSize && Ingest(t, s, blocks, tail).Ok?
    ensures NotNext(Ingest(t, s, blocks, tail).state.lru, Key(s, |blocks|))
  {
    hide StoredBut, PoolOk, Lru.Valid, AllSized, Trim, WithBlocks, Stage, NotNext;
    RepresentsShaped(t, p);
    NothingStored(t, p);
    TrimShaped(t, s, blocks);
    TrimStored(t, p, s, blocks);
    if t.writeThrough { PromptMirrored(t, s, blocks); }
    WithBlocksKeys(p, s, blocks, 0, Key(s, |blocks|));
    StagedLast(Trim(t, s, blocks).state, WithBlocks(p, s, blocks, 0), Key(s, |blocks|), tail);
  }

  lemma SameRecency<T>(t: Tier<T>, s: nat, op: Op<T>)
    requires Shaped(t) && WellShaped(t, op)
    requires op.OpPrevSelected? || ((op.OpTrim? || op.OpIngest?) && op.seqId in t.trimmed)
    ensures Step(t, op).state.lru == t.lru
  {
    hide PoolOk, AllSized, Lru.Valid, Trim, Ingest;
    match op
    case OpTrim(s, blocks) => SecondTrim(t, s, blocks);
    case OpIngest(s, blocks, tail) => SecondIngest(t, s, blocks, tail);
    case _ =>
  }

  /** A cautious turn leaves the live block out of harm's way. */
  lemma CautiousSafe<T>(t: Tier<T>, p: Plain<T>, s: nat, last: Last, exposed: bool, op: Op<T>)
    requires Decoding(t, p, s, last) && MayGuess(t) && Safe(t, last, exposed) && Cautious(t, p, s, last, exposed, op)
    requires Turn(t, p, s, last, op) && Step(t, op).Ok?
    ensures Safe(Step(t, op).state, LastAfter(t, s, last, op), ExposedAfter(t, s, last, exposed, op))
  {
    hide StoredBut, TracksBut, AccountedTo, PoolOk, Lru.Valid, AllSized;
    hide ListsCopies, Roomy, RequestFits, Next, Again, Grown;
    hide Fill, WriteLive, AppendAt, EnsureResident, Prefetch, Trim, Ingest, Release, NotNext, Tailed, SparesLive;
    match op
    case OpFill(_, _) =>
    case OpLive(key, kv) => LiveKeeps(t, p, s, last, key, kv);
    case OpAppend(_, pos, kRow, vRow) =>
      AppendKeeps(t, p, s, last, Key(s, pos / t.blockSize), pos % t.blockSize, kRow, vRow);
    case OpEnsure(_, ids, keep) => if last.Live? { SlackSafe(t, p, s, last, ids, keep); }
    case OpPrefetch(_, ids) => if last.Live? { GuessSafe(t, p, s, last, exposed, ids); }
    case OpPrevSelected(_, _) => SameRecency(t, s, op);
    case OpTrim(_, blocks) => if s in t.trimmed { SameRecency(t, s, op); }
    case OpIngest(_, blocks, tail) =>
      if s in t.trimmed { SameRecency(t, s, op); } else if |tail.k| > 0 { IngestSafe(t, p, s, blocks, tail); }
    case OpRelease(_, _) =>
  }

  /** One turn of a cautious loop; `x` and `y` say whether the live block was the last thing guessed. */
  ghost predicate CautiouslyTurned<T>(a: Moment<T>, x: bool, op: Op<T>, b: Moment<T>, y: bool) {
    && Cautious(a.t, a.p, a.s, a.last, x, op)
    && b.t == Step(a.t, op).state && b.p == PlainStep(a.t, a.p, op) && b.last == LastAfter(a.t, a.s, a.last, op)
    && (b.s == a.s || op.OpRelease?) && y == ExposedAfter(a.t, a.s, a.last, x, op)
  }

  ghost predicate ReadyToGuess<T>(a: Moment<T>, x: bool) {
    Ready(a) && MayGuess(a.t) && Safe(a.t, a.last, x)
  }

  lemma CautiousStep<T>(a: Moment<T>, x: bool, op: Op<T>, b: Moment<T>, y: bool)
    requires ReadyToGuess(a, x) && CautiouslyTurned(a, x, op, b, y)
    ensures Turned(a, op, b) && Step(a.t, op) == Ok(b.t) && ReadyToGuess(b, y)
  {
    hide StoredBut, TracksBut, AccountedTo, Tailed, PlainStep, Habit, Roomy, LastAfter, Safe, ExposedAfter, Step;
    hide PoolOk, Lru.Valid, AllSized, WellShaped, Concerns, Cautious;
    CautiousIsTurn(a.t, a.p, a.s, a.last, x, op);
    TurnedReady(a, op, b);
    CautiousSafe(a.t, a.p, a.s, a.last, x, op);
    StepKeepsSize(a.t, op);
  }

  /**
   A guessing loop with these habits never raises over whole runs from a new layer, and every one of its turns spares
   the live block. Nothing about the layer's contents is assumed beyond the fit of its requests.
   */
  lemma {:induction false} CautiousLoopNeverRaises<T>(run: seq<Moment<T>>, ex: seq<bool>, ops: seq<Op<T>>, n: nat)
    requires |run| == |ex| == |ops| + 1 && n <= |ops|
    requires Shaped(run[0].t) && New(run[0].t) && run[0].p == map[] && run[0].last == Nothing && MayGuess(run[0].t)
    requires forall i :: 0 <= i < |ops| ==> CautiouslyTurned(run[i], ex[i], ops[i], run[i + 1], ex[i + 1])
    ensures ReadyToGuess(run[n], ex[n])
    ensures n < |ops| ==> Shaped(run[n].t) && WellShaped(run[n].t, ops[n]) && Step(run[n].t, ops[n]) == Ok(run[n + 1].t)
    decreases n
  {
    hide Ready, Step, PlainStep, Habit, Roomy, LastAfter, WellShaped, New, Shaped, Cautious, ExposedAfter;
    if n == 0 {
      NewReady(run[0]);
    } else {
      CautiousLoopNeverRaises(run, ex, ops, n - 1);
      CautiousStep(run[n - 1], ex[n - 1], ops[n - 1], run[n], ex[n]);
    }
    if n < |ops| { CautiousStep(run[n], ex[n], ops[n], run[n + 1], ex[n + 1]); }
  }
}
