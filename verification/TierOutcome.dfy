/**
 The exact outcome of every operation, in any state and with any number of sequences cached, read off the state before
 the call. A pass over many blocks is decided by the trace of the slot map, which says who is evicted when, by the
 residency rows as the earlier loads and evictions leave them, and by counting host slots.
 */
module TierOutcome {
  import opened Lists
  import opened SlotMap
  import opened WorkingSet
  import opened TierModel
  import opened TierTransparency
  import opened TierPlacement
  import opened TierFailure

  // ------------------------------------------------------------------ what earlier blocks of a pass leave

  /** Requests for selected blocks and speculative ones differ only in what becomes of an untrusted guess. */
  function PassOf<T>(t: Tier<T>, keys: seq<Key>, guess: bool): Outcome<T>
    requires Shaped(t)
  {
    if guess then Prefetch(t, keys) else EnsureAll(t, keys)
  }

  predicate Trusted<T>(t: Tier<T>, guess: bool) {
    !guess || t.prefetchTouch
  }

  /** The slot map before block `n` of a pass. */
  function ArenaAt<T>(t: Tier<T>, s: nat, keys: seq<Key>, guess: bool, n: nat): Lru
    requires t.lru.Valid() && n <= |keys|
  {
    Speculate(t.lru, keys[..n], ProtectedKeys(t, s), Trusted(t, guess)).lru
  }

  /** Who gives way to block `n`, if anybody. */
  function VictimAt<T>(t: Tier<T>, s: nat, keys: seq<Key>, guess: bool, n: nat): Option<Key>
    requires t.lru.Valid() && n < |keys|
  {
    var l := ArenaAt(t, s, keys, guess, n);
    if keys[n] in l.slot || l.free != [] || l.order == [] then None else Some(Victim(l.order, ProtectedKeys(t, s)))
  }

  predicate MissAt<T>(t: Tier<T>, s: nat, keys: seq<Key>, guess: bool, n: nat)
    requires t.lru.Valid() && n < |keys|
  {
    keys[n] !in ArenaAt(t, s, keys, guess, n).slot
  }

  /** The residency rows before block `n`: each earlier miss sends its victim out and brings its block in. */
  function RowsAt<T>(t: Tier<T>, s: nat, keys: seq<Key>, guess: bool, n: nat): map<nat, Residency>
    requires t.lru.Valid() && n <= |keys|
  {
    if n == 0 then t.residency
    else
      var rows, e := RowsAt(t, s, keys, guess, n - 1), VictimAt(t, s, keys, guess, n - 1);
      if !MissAt(t, s, keys, guess, n - 1) then rows
      else (if e.Some? then rows[e.value.block := OnCpu] else rows)[keys[n - 1].block := OnGpu]
  }

  /** The blocks with a host record before block `n`: mirrors stay, spilled blocks swap with their victims. */
  function CopiesAt<T>(t: Tier<T>, s: nat, keys: seq<Key>, guess: bool, n: nat): set<Key>
    requires t.lru.Valid() && n <= |keys|
  {
    if n == 0 || t.writeThrough then Backing(t).Keys
    else
      var copies, e := CopiesAt(t, s, keys, guess, n - 1), VictimAt(t, s, keys, guess, n - 1);
      if !MissAt(t, s, keys, guess, n - 1) then copies else copies - {keys[n - 1]} + Elems(OptSeq(e))
  }

  /** Free host slots before block `n`: under write-back every reload into a free arena slot has given one back. */
  function SpareAt<T>(t: Tier<T>, s: nat, keys: seq<Key>, guess: bool, n: nat): int
    requires t.lru.Valid() && n <= |keys|
  {
    if t.writeThrough then |t.cpuFree| else |t.cpuFree| + |t.lru.free| - |ArenaAt(t, s, keys, guess, n).free|
  }

  /** What block `n` of a pass raises when the blocks before it went through. */
  function FailureAt<T>(t: Tier<T>, s: nat, keys: seq<Key>, guess: bool, n: nat): Option<Failure>
    requires t.lru.Valid() && n < |keys|
  {
    var l, rows, key := ArenaAt(t, s, keys, guess, n), RowsAt(t, s, keys, guess, n), keys[n];
    if key in l.slot then None
    else if key !in CopiesAt(t, s, keys, guess, n) then Some(NotFound)
    else if l.free != [] then if MayLoad(rows, key.block) then None else Some(BadTransition)
    else match VictimAt(t, s, keys, guess, n)
      case None => Some(NoArena)
      case Some(v) =>
        if t.writeThrough && v !in t.hostSlots then Some(NoBackup)
        else if !t.writeThrough && SpareAt(t, s, keys, guess, n) <= 0 then Some(PoolFull)
        else if MayEvict(rows, v.block) && (v.block == key.block || MayLoad(rows, key.block)) then None
        else Some(BadTransition)
  }

  /** The first failure from block `n` on. */
  function PassFailure<T>(t: Tier<T>, s: nat, keys: seq<Key>, guess: bool, n: nat): Option<Failure>
    requires t.lru.Valid() && n <= |keys|
    decreases |keys| - n
  {
    if n == |keys| then None else Either(FailureAt(t, s, keys, guess, n), PassFailure(t, s, keys, guess, n + 1))
  }

  // ------------------------------------------------------------------ one block

  function OneOf<T>(t: Tier<T>, key: Key, guess: bool): Outcome<T>
    requires Shaped(t)
  {
    match EnsureOne(t, key)
    case Err(e, u) => Err(e, u)
    case Ok(u) => Ok(if guess then Demoted(u, key) else u)
  }

  /** What one request does to everything later requests depend on. */
  ghost predicate Advanced<T>(t: Tier<T>, key: Key, guess: bool, u: Tier<T>) {
    var protected := ProtectedKeys(t, key.seqId);
    && Shaped(u) && SameMode(u, t)
    && (t.lru.Valid() && Add(t.lru, key, protected).Some?)
    && var a := Add(t.lru, key, protected).value;
       && u.lru == (if Trusted(t, guess) then a.lru else Demote(a.lru, key))
       && (key in t.lru.slot ==> u.residency == t.residency && u.cpuFree == t.cpuFree && Backing(u) == Backing(t))
       && (key !in t.lru.slot ==>
             && u.residency ==
                  (if a.evicted.Some? then t.residency[a.evicted.value.block := OnCpu] else t.residency)
                  [key.block := OnGpu]
             && (t.writeThrough ==> u.cpuFree == t.cpuFree && u.hostSlots == t.hostSlots)
             && (!t.writeThrough ==> |u.cpuFree| == |t.cpuFree| + (if a.evicted.Some? then 0 else 1)
                                     && u.cpuSlots.Keys == t.cpuSlots.Keys - {key} + Elems(OptSeq(a.evicted))))
  }

  lemma PlaceBooks<T>(t: Tier<T>, key: Key, protected: set<Key>)
    requires Shaped(t) && Place(t, key, protected).Placed?
    ensures Add(t.lru, key, protected).Some?
    ensures var u, a := Place(t, key, protected).state, Add(t.lru, key, protected).value;
            && u.lru == a.lru
            && u.residency == (if a.evicted.Some? then t.residency[a.evicted.value.block := OnCpu] else t.residency)
            && (t.writeThrough ==> u.cpuFree == t.cpuFree && u.hostSlots == t.hostSlots)
            && (!t.writeThrough ==> |u.cpuFree| + (if a.evicted.Some? then 1 else 0) == |t.cpuFree|
                                    && u.cpuSlots.Keys == t.cpuSlots.Keys + Elems(OptSeq(a.evicted)))
  {
    hide PoolOk, AllSized, Lru.Valid, Add;
    AddValid(t.lru, key, protected);
  }

  lemma RequestAdvances<T>(t: Tier<T>, key: Key)
    requires Shaped(t) && EnsureOne(t, key).Ok?
    ensures Advanced(t, key, false, EnsureOne(t, key).state)
  {
    hide PoolOk, AllSized, Lru.Valid, Place, Add;
    EnsureOneShaped(t, key);
    EnsureOneLru(t, key);
    if key !in t.lru.slot {
      TakenShaped(t, key);
      var t0 := t.(cpuSlots := t.cpuSlots - {key});
      PlaceShaped(t0, key, ProtectedKeys(t, key.seqId));
      PlaceBooks(t0, key, ProtectedKeys(t, key.seqId));
    }
  }

  lemma OneAdvances<T>(t: Tier<T>, key: Key, guess: bool)
    requires Shaped(t) && OneOf(t, key, guess).Ok?
    ensures Advanced(t, key, guess, OneOf(t, key, guess).state)
  {
    hide PoolOk, AllSized, Lru.Valid, EnsureOne, Add;
    RequestAdvances(t, key);
    EnsureOneLands(t, key);
    if guess { DemotedShaped(EnsureOne(t, key).state, key); }
  }

  // ------------------------------------------------------------------ passes, block by block

  lemma {:induction false} PassSnoc<T>(t: Tier<T>, keys: seq<Key>, key: Key, guess: bool)
    requires Shaped(t)
    ensures PassOf(t, keys, guess).Ok? ==> Shaped(PassOf(t, keys, guess).state)
    ensures PassOf(t, keys + [key], guess) ==
            if PassOf(t, keys, guess).Ok? then OneOf(PassOf(t, keys, guess).state, key, guess)
            else PassOf(t, keys, guess)
    decreases |keys|
  {
    hide PoolOk, AllSized, Lru.Valid, EnsureOne;
    var all := keys + [key];
    if keys == [] {
      assert all[0] == key && all[1..] == [];
      if EnsureOne(t, key).Ok? {
        var u := EnsureOne(t, key).state;
        EnsureOneShaped(t, key);
        DemotedShaped(u, key);
        assert EnsureAll(u, []) == Ok(u) && Prefetch(Demoted(u, key), []) == Ok(Demoted(u, key));
      }
    } else {
      assert all[0] == keys[0] && all[1..] == keys[1..] + [key];
      if EnsureOne(t, keys[0]).Ok? {
        EnsureOneShaped(t, keys[0]);
        DemotedShaped(EnsureOne(t, keys[0]).state, keys[0]);
        PassSnoc(OneOf(t, keys[0], guess).state, keys[1..], key, guess);
      }
    }
  }

  lemma {:induction false} SpeculateSnoc(l: Lru, ks: seq<Key>, k: Key, protected: set<Key>, trusted: bool)
    requires l.Valid() && l.capacity > 0
    ensures var m := Speculate(l, ks, protected, trusted).lru;
            && m.Valid() && m.capacity == l.capacity && Add(m, k, protected).Some?
            && var a := Add(m, k, protected).value.lru;
               Speculate(l, ks + [k], protected, trusted).lru == if trusted then a else Demote(a, k)
    decreases |ks|
  {
    hide Lru.Valid, Add;
    var all := ks + [k];
    AddValid(l, all[0], protected);
    var m := Add(l, all[0], protected).value.lru;
    TouchValid(m, all[0]);
    if ks == [] {
      assert all[1..] == [];
    } else {
      assert all[0] == ks[0] && all[1..] == ks[1..] + [k];
      SpeculateSnoc(if trusted then m else Demote(m, ks[0]), ks[1..], k, protected, trusted);
    }
  }

  /** The state before block `n` of a pass, as far as it decides what happens next. */
  ghost predicate Reached<T>(t: Tier<T>, s: nat, keys: seq<Key>, guess: bool, n: nat, u: Tier<T>)
    requires t.lru.Valid() && n <= |keys|
  {
    && Shaped(u) && SameMode(u, t)
    && u.lru == ArenaAt(t, s, keys, guess, n) && u.residency == RowsAt(t, s, keys, guess, n)
    && Backing(u).Keys == CopiesAt(t, s, keys, guess, n) && |u.cpuFree| == SpareAt(t, s, keys, guess, n)
    && (t.writeThrough ==> u.hostSlots == t.hostSlots)
  }

  /** In such a state the next block fails exactly as the trace says. */
  lemma FailsAsTraced<T>(t: Tier<T>, s: nat, keys: seq<Key>, guess: bool, n: nat, u: Tier<T>)
    requires Shaped(t) && n < |keys| && keys[n].seqId == s && Reached(t, s, keys, guess, n, u)
    ensures Raised(OneOf(u, keys[n], guess)) == FailureAt(t, s, keys, guess, n)
  {
    hide PoolOk, AllSized, Lru.Valid, EnsureOne, ArenaAt, RowsAt, CopiesAt;
    ReloadOkIff(u, keys[n]);
    SameProtection(t, u, s);
  }

  lemma SameProtection<T>(t: Tier<T>, u: Tier<T>, s: nat)
    requires SameMode(u, t)
    ensures ProtectedKeys(u, s) == ProtectedKeys(t, s)
  {
  }

  lemma ArenaNext<T>(t: Tier<T>, s: nat, keys: seq<Key>, guess: bool, n: nat)
    requires t.lru.Valid() && t.lru.capacity > 0 && n < |keys|
    ensures var l := ArenaAt(t, s, keys, guess, n);
            && l.Valid() && Add(l, keys[n], ProtectedKeys(t, s)).Some?
            && var a := Add(l, keys[n], ProtectedKeys(t, s)).value;
               && AddedRight(l, keys[n], a) && a.evicted == VictimAt(t, s, keys, guess, n)
               && ArenaAt(t, s, keys, guess, n + 1) == if Trusted(t, guess) then a.lru else Demote(a.lru, keys[n])
  {
    hide Lru.Valid, Speculate;
    assert keys[..n + 1] == keys[..n] + [keys[n]];
    SpeculateSnoc(t.lru, keys[..n], keys[n], ProtectedKeys(t, s), Trusted(t, guess));
    AddValid(ArenaAt(t, s, keys, guess, n), keys[n], ProtectedKeys(t, s));
  }

  /** One block further. */
  lemma ReachedNext<T>(t: Tier<T>, s: nat, keys: seq<Key>, guess: bool, n: nat, u: Tier<T>, w: Tier<T>)
    requires Shaped(t) && t.lru.capacity > 0 && n < |keys| && keys[n].seqId == s
    requires Reached(t, s, keys, guess, n, u) && Advanced(u, keys[n], guess, w)
    ensures Reached(t, s, keys, guess, n + 1, w)
  {
    hide PoolOk, AllSized, Lru.Valid, ArenaAt, Add, VictimAt;
    ArenaNext(t, s, keys, guess, n);
    SameProtection(t, u, s);
    var a := Add(u.lru, keys[n], ProtectedKeys(t, s)).value;
    RowsNext(t, s, keys, guess, n, a.evicted);
  }

  lemma RowsNext<T>(t: Tier<T>, s: nat, keys: seq<Key>, guess: bool, n: nat, e: Option<Key>)
    requires t.lru.Valid() && n < |keys| && e == VictimAt(t, s, keys, guess, n)
    ensures var rows := RowsAt(t, s, keys, guess, n);
            RowsAt(t, s, keys, guess, n + 1) ==
            if !MissAt(t, s, keys, guess, n) then rows
            else (if e.Some? then rows[e.value.block := OnCpu] else rows)[keys[n].block := OnGpu]
    ensures !t.writeThrough ==>
              var copies := CopiesAt(t, s, keys, guess, n);
              CopiesAt(t, s, keys, guess, n + 1) ==
                  if !MissAt(t, s, keys, guess, n) then copies else copies - {keys[n]} + Elems(OptSeq(e))
    ensures t.writeThrough ==> CopiesAt(t, s, keys, guess, n + 1) == CopiesAt(t, s, keys, guess, n)
  {
    hide ArenaAt, VictimAt;
  }

  lemma {:induction false} PassStops<T>(t: Tier<T>, keys: seq<Key>, guess: bool, n: nat)
    requires Shaped(t) && n <= |keys| && PassOf(t, keys[..n], guess).Err?
    ensures PassOf(t, keys, guess) == PassOf(t, keys[..n], guess)
    decreases |keys| - n
  {
    hide PassOf;
    if n == |keys| {
      assert keys[..n] == keys;
    } else {
      assert keys[..n + 1] == keys[..n] + [keys[n]];
      PassSnoc(t, keys[..n], keys[n], guess);
      PassStops(t, keys, guess, n + 1);
    }
  }

  lemma {:induction false} PassFrom<T>(t: Tier<T>, s: nat, keys: seq<Key>, guess: bool, n: nat)
    requires Shaped(t) && n <= |keys| && forall k :: k in keys ==> k.seqId == s
    requires PassOf(t, keys[..n], guess).Ok? && Reached(t, s, keys, guess, n, PassOf(t, keys[..n], guess).state)
    ensures Raised(PassOf(t, keys, guess)) == PassFailure(t, s, keys, guess, n)
    decreases |keys| - n
  {
    hide PoolOk, AllSized, Lru.Valid, PassOf, OneOf, FailureAt, Advanced, ArenaAt, RowsAt, CopiesAt, SpareAt;
    if n == |keys| {
      assert keys[..n] == keys;
    } else {
      var u := PassOf(t, keys[..n], guess).state;
      assert keys[n] in keys && keys[..n + 1] == keys[..n] + [keys[n]];
      PassSnoc(t, keys[..n], keys[n], guess);
      FailsAsTraced(t, s, keys, guess, n, u);
      if OneOf(u, keys[n], guess).Ok? {
        OneAdvances(u, keys[n], guess);
        AdvancedRoom(u, keys[n], guess);
        ReachedNext(t, s, keys, guess, n, u, OneOf(u, keys[n], guess).state);
        PassFrom(t, s, keys, guess, n + 1);
      } else {
        PassStops(t, keys, guess, n + 1);
      }
    }
  }

  lemma AdvancedRoom<T>(t: Tier<T>, key: Key, guess: bool)
    requires Shaped(t) && OneOf(t, key, guess).Ok?
    ensures t.lru.capacity > 0
  {
    hide PoolOk, AllSized, Lru.Valid, EnsureOne, Add;
    EnsureOneLru(t, key);
    AddValid(t.lru, key, ProtectedKeys(t, key.seqId));
  }

  lemma ReachedAtOnce<T>(t: Tier<T>, s: nat, keys: seq<Key>, guess: bool)
    requires Shaped(t)
    ensures PassOf(t, keys[..0], guess) == Ok(t) && Reached(t, s, keys, guess, 0, t)
  {
    hide PoolOk, AllSized, Lru.Valid;
    assert keys[..0] == [];
  }

  /**
   The exact outcome of a pass over blocks of one sequence, in any state: the first failure along the trace, if any.
   */
  lemma PassOutcome<T>(t: Tier<T>, s: nat, keys: seq<Key>)
    requires Shaped(t) && forall k :: k in keys ==> k.seqId == s
    ensures Raised(EnsureAll(t, keys)) == PassFailure(t, s, keys, false, 0)
    ensures Raised(Prefetch(t, keys)) == PassFailure(t, s, keys, true, 0)
  {
    hide Shaped, EnsureAll, Prefetch, Reached, PassFailure;
    ShapedValid(t);
    ReachedAtOnce(t, s, keys, false);
    ReachedAtOnce(t, s, keys, true);
    PassFrom(t, s, keys, false, 0);
    PassFrom(t, s, keys, true, 0);
  }

  lemma ShapedValid<T>(t: Tier<T>)
    requires Shaped(t)
    ensures t.lru.Valid()
  {
  }

  // ------------------------------------------------------------------ prompt hand-over

  /** Host slots taken by the prompt blocks before `b`. */
  function HostTaken<T>(t: Tier<T>, s: nat, keepFrom: nat, b: nat): nat {
    if b == 0 then 0
    else
      var takes := if t.writeThrough then Key(s, b - 1) !in t.hostSlots else b - 1 < keepFrom;
      HostTaken(t, s, keepFrom, b - 1) + if takes then 1 else 0
  }

  /** Arena slots taken by the prompt blocks before `b`. */
  function ArenaTaken<T>(t: Tier<T>, s: nat, keepFrom: nat, b: nat): nat {
    if b == 0 then 0
    else ArenaTaken(t, s, keepFrom, b - 1) + if b - 1 >= keepFrom && Key(s, b - 1) !in t.lru.slot then 1 else 0
  }

  /** The kept prompt blocks before `b`, in the order they enter the arena. */
  function KeptKeys(s: nat, keepFrom: nat, b: nat): seq<Key> {
    if b <= keepFrom then [] else KeptKeys(s, keepFrom, b - 1) + [Key(s, b - 1)]
  }

  /** The residency row of block `x` once the prompt blocks before `b` are handed over. */
  function PromptRow<T>(t: Tier<T>, keepFrom: nat, b: nat, x: nat): Residency {
    if x >= b then StateOf(t.residency, x) else if x >= keepFrom then OnGpu else OnCpu
  }

  /** What prompt block `b` raises when the blocks before it went through. */
  function PromptFailureAt<T>(t: Tier<T>, s: nat, keepFrom: nat, b: nat): Option<Failure> {
    var key, full := Key(s, b), |t.cpuFree| <= HostTaken(t, s, keepFrom, b);
    var mirrored := t.writeThrough && key in t.hostSlots;
    if b >= keepFrom then
      if t.lru.capacity == 0 then Some(NoArena)
      else if key !in t.lru.slot && |t.lru.free| <= ArenaTaken(t, s, keepFrom, b) then Some(ArenaOverflow)
      else if t.writeThrough && !mirrored && full then Some(PoolFull)
      else None
    else if !mirrored && full then Some(PoolFull)
    else if !MayEvict(t.residency, b) then Some(BadTransition)
    else None
  }

  /** The first failure from prompt block `b` on. */
  function PromptFailure<T>(t: Tier<T>, s: nat, n: nat, keepFrom: nat, b: nat): Option<Failure>
    requires b <= n
    decreases n - b
  {
    if b == n then None else Either(PromptFailureAt(t, s, keepFrom, b), PromptFailure(t, s, n, keepFrom, b + 1))
  }

  /** The state once the prompt blocks before `b` are handed over, as far as it decides what happens next. */
  ghost predicate HandedTo<T>(t: Tier<T>, s: nat, keepFrom: nat, b: nat, u: Tier<T>)
    requires t.lru.Valid()
  {
    && Shaped(u) && u.blockSize == t.blockSize && u.writeThrough == t.writeThrough && u.lru.capacity == t.lru.capacity
    && u.lru == Speculate(t.lru, KeptKeys(s, keepFrom, b), {}, true).lru
    && |u.lru.free| + ArenaTaken(t, s, keepFrom, b) == |t.lru.free|
    && |u.cpuFree| + HostTaken(t, s, keepFrom, b) == |t.cpuFree|
    && (forall x :: x in u.lru.slot <==> x in t.lru.slot || (x.seqId == s && keepFrom <= x.block < b))
    && (t.writeThrough ==> forall x :: x in u.hostSlots <==> x in t.hostSlots || (x.seqId == s && x.block < b))
    && (forall x: nat :: StateOf(u.residency, x) == PromptRow(t, keepFrom, b, x))
  }

  lemma PromptFails<T>(t: Tier<T>, s: nat, keepFrom: nat, b: nat, u: Tier<T>, kv: KV<T>)
    requires t.lru.Valid() && HandedTo(t, s, keepFrom, b, u) && Sized(kv, t.blockSize)
    ensures Raised(TrimBlock(u, Key(s, b), kv, b >= keepFrom)) == PromptFailureAt(t, s, keepFrom, b)
  {
    hide PoolOk, AllSized, Lru.Valid, TrimBlock, Speculate, KeptKeys;
    var key := Key(s, b);
    if b >= keepFrom { KeptFails(u, key, kv); } else { SentFails(u, key, kv); }
  }

  lemma SentNext<T>(t: Tier<T>, s: nat, keepFrom: nat, b: nat, u: Tier<T>, kv: KV<T>)
    requires t.lru.Valid() && HandedTo(t, s, keepFrom, b, u) && Sized(kv, t.blockSize) && b < keepFrom
    requires TrimBlock(u, Key(s, b), kv, false).Ok?
    ensures HandedTo(t, s, keepFrom, b + 1, TrimBlock(u, Key(s, b), kv, false).state)
  {
    hide PoolOk, AllSized, Lru.Valid, TrimBlock, Speculate;
    var key := Key(s, b);
    SentFails(u, key, kv);
    TrimBlockShaped(u, key, kv, false);
    assert KeptKeys(s, keepFrom, b + 1) == KeptKeys(s, keepFrom, b) == [];
    var w := TrimBlock(u, key, kv, false).state;
    assert |w.cpuFree| + HostTaken(t, s, keepFrom, b + 1) == |t.cpuFree|;
    assert ArenaTaken(t, s, keepFrom, b + 1) == ArenaTaken(t, s, keepFrom, b);
    OneBlockMore(s, b);
    forall x: nat ensures StateOf(w.residency, x) == PromptRow(t, keepFrom, b + 1, x) {
      assert StateOf(u.residency, x) == PromptRow(t, keepFrom, b, x);
    }
    if t.writeThrough {
      forall x ensures x in w.hostSlots <==> x in t.hostSlots || (x.seqId == s && x.block < b + 1) {
        assert x in w.hostSlots.Keys <==> x in u.hostSlots.Keys || x == key;
      }
    }
  }

  lemma OneBlockMore(s: nat, b: nat)
    ensures forall x: Key :: x.seqId == s && x.block < b + 1 <==> (x.seqId == s && x.block < b) || x == Key(s, b)
  {
  }

  /** What keeping one block does to the part of the state later blocks depend on. */
  lemma KeptBooks<T>(t: Tier<T>, key: Key, kv: KV<T>)
    requires Shaped(t) && Sized(kv, t.blockSize) && TrimBlock(t, key, kv, true).Ok?
    ensures Add(t.lru, key, {}).Some?
    ensures var u, a := TrimBlock(t, key, kv, true).state, Add(t.lru, key, {}).value;
            && u.lru == a.lru && a.evicted.None? && AddedRight(t.lru, key, a)
            && u.residency == t.residency[key.block := OnGpu]
            && |u.cpuFree| + (if t.writeThrough && key !in t.hostSlots then 1 else 0) == |t.cpuFree|
            && (t.writeThrough ==> u.hostSlots.Keys == t.hostSlots.Keys + {key})
  {
    hide PoolOk, AllSized, Lru.Valid, Mirror, Add;
    AddValid(t.lru, key, {});
    var a := Add(t.lru, key, {}).value;
    if t.writeThrough { MirrorFails(Written(t.(lru := a.lru), a.slot, kv, key.block), key, kv); }
  }

  lemma KeptNext<T>(t: Tier<T>, s: nat, keepFrom: nat, b: nat, u: Tier<T>, kv: KV<T>)
    requires t.lru.Valid() && HandedTo(t, s, keepFrom, b, u) && Sized(kv, t.blockSize) && b >= keepFrom
    requires TrimBlock(u, Key(s, b), kv, true).Ok?
    ensures HandedTo(t, s, keepFrom, b + 1, TrimBlock(u, Key(s, b), kv, true).state)
  {
    hide PoolOk, AllSized, Lru.Valid, TrimBlock, Speculate, Add;
    var key := Key(s, b);
    KeptBooks(u, key, kv);
    TrimBlockShaped(u, key, kv, true);
    AddValid(u.lru, key, {});
    SpeculateSnoc(t.lru, KeptKeys(s, keepFrom, b), key, {}, true);
    var w := TrimBlock(u, key, kv, true).state;
    assert KeptKeys(s, keepFrom, b + 1) == KeptKeys(s, keepFrom, b) + [key];
    assert |w.lru.free| + ArenaTaken(t, s, keepFrom, b + 1) == |t.lru.free|;
    assert |w.cpuFree| + HostTaken(t, s, keepFrom, b + 1) == |t.cpuFree|;
    OneBlockMore(s, b);
    forall x: nat ensures StateOf(w.residency, x) == PromptRow(t, keepFrom, b + 1, x) {
      assert StateOf(u.residency, x) == PromptRow(t, keepFrom, b, x);
    }
    forall x ensures x in w.lru.slot <==> x in t.lru.slot || (x.seqId == s && keepFrom <= x.block < b + 1) {
      assert x in w.lru.slot <==> x in u.lru.slot || x == key;
    }
    if t.writeThrough {
      forall x ensures x in w.hostSlots <==> x in t.hostSlots || (x.seqId == s && x.block < b + 1) {
        assert x in w.hostSlots.Keys <==> x in u.hostSlots.Keys || x == key;
      }
    }
  }

  lemma {:induction false} PromptFrom<T>(t: Tier<T>, s: nat, blocks: seq<KV<T>>, keepFrom: nat, b: nat, u: Tier<T>)
    requires t.lru.Valid() && b <= |blocks| && HandedTo(t, s, keepFrom, b, u) && AllSized(blocks, t.blockSize)
    ensures Raised(TrimFrom(u, s, blocks, keepFrom, b)) == PromptFailure(t, s, |blocks|, keepFrom, b)
    ensures TrimFrom(u, s, blocks, keepFrom, b).Ok? ==>
            HandedTo(t, s, keepFrom, |blocks|, TrimFrom(u, s, blocks, keepFrom, b).state)
    decreases |blocks| - b
  {
    hide PoolOk, Lru.Valid, TrimBlock, HandedTo, PromptFailureAt;
    HandedShaped(t, s, keepFrom, b, u);
    if b < |blocks| {
      var key, kept := Key(s, b), b >= keepFrom;
      PromptFails(t, s, keepFrom, b, u, blocks[b]);
      if TrimBlock(u, key, blocks[b], kept).Ok? {
        if kept { KeptNext(t, s, keepFrom, b, u, blocks[b]); } else { SentNext(t, s, keepFrom, b, u, blocks[b]); }
        TrimBlockShaped(u, key, blocks[b], kept);
        PromptFrom(t, s, blocks, keepFrom, b + 1, TrimBlock(u, key, blocks[b], kept).state);
      }
    }
  }

  lemma HandedShaped<T>(t: Tier<T>, s: nat, keepFrom: nat, b: nat, u: Tier<T>)
    requires t.lru.Valid() && HandedTo(t, s, keepFrom, b, u)
    ensures Shaped(u) && u.blockSize == t.blockSize
  {
    hide PoolOk, AllSized, Lru.Valid;
  }

  /** The exact outcome of a prompt hand-over, in any state, and what it leaves. */
  lemma TrimOutcome<T>(t: Tier<T>, s: nat, blocks: seq<KV<T>>)
    requires Shaped(t) && AllSized(blocks, t.blockSize) && s !in t.trimmed
    ensures var keepFrom := KeepFrom(|blocks|, t.lru.capacity);
            && Raised(Trim(t, s, blocks)) == PromptFailure(t, s, |blocks|, keepFrom, 0)
            && (Trim(t, s, blocks).Ok? ==> HandedTo(t, s, keepFrom, |blocks|, Trim(t, s, blocks).state))
  {
    hide PoolOk, Lru.Valid, TrimFrom;
    var keepFrom, u := KeepFrom(|blocks|, t.lru.capacity), t.(trimmed := t.trimmed + {s});
    assert KeptKeys(s, keepFrom, 0) == [];
    PromptFrom(t, s, blocks, keepFrom, 0, u);
  }

  lemma {:induction false} HostTakenGrows<T>(t: Tier<T>, s: nat, keepFrom: nat, a: nat, b: nat)
    requires a <= b
    ensures HostTaken(t, s, keepFrom, a) <= HostTaken(t, s, keepFrom, b) <= HostTaken(t, s, keepFrom, a) + (b - a)
    decreases b
  {
    if a < b { HostTakenGrows(t, s, keepFrom, a, b - 1); }
  }

  /** Prompt block `i` is sent out, the pool lasts that far, and its row does not allow it. */
  ghost predicate RefusesAt<T>(t: Tier<T>, s: nat, n: nat, keepFrom: nat, i: nat) {
    i < keepFrom && i < n && !MayEvict(t.residency, i) && HostTaken(t, s, keepFrom, i + 1) <= |t.cpuFree|
  }

  lemma {:induction false} PromptRefused<T>(t: Tier<T>, s: nat, n: nat, keepFrom: nat, b: nat)
    requires b <= n && HostTaken(t, s, keepFrom, b) <= |t.cpuFree|
    ensures PromptFailure(t, s, n, keepFrom, b) == Some(BadTransition)
            <==> exists i: nat :: b <= i && RefusesAt(t, s, n, keepFrom, i)
    decreases n - b
  {
    if b < n {
      var next := b + 1;
      if PromptFailureAt(t, s, keepFrom, b).None? {
        PromptRefused(t, s, n, keepFrom, next);
        assert !RefusesAt(t, s, n, keepFrom, b);
      } else if PromptFailureAt(t, s, keepFrom, b) == Some(BadTransition) {
        assert RefusesAt(t, s, n, keepFrom, b);
      } else if b < keepFrom {
        forall i: nat | b <= i ensures !RefusesAt(t, s, n, keepFrom, i) {
          HostTakenGrows(t, s, keepFrom, b + 1, i + 1);
        }
      }
    }
  }

  ghost predicate TrimRefused<T>(t: Tier<T>, s: nat, n: nat) {
    s !in t.trimmed && exists i: nat :: RefusesAt(t, s, n, KeepFrom(n, t.lru.capacity), i)
  }

  /**
   A prompt hand-over is refused exactly when the pool lasts up to a block whose row does not allow sending it out.
   */
  lemma TrimRefusedIff<T>(t: Tier<T>, s: nat, blocks: seq<KV<T>>)
    requires Shaped(t) && AllSized(blocks, t.blockSize)
    ensures Refused(Trim(t, s, blocks)) <==> TrimRefused(t, s, |blocks|)
  {
    hide Shaped, AllSized, Trim, HandedTo, PromptFailure, RefusesAt;
    if s in t.trimmed {
      SecondTrim(t, s, blocks);
    } else {
      var n, keepFrom := |blocks|, KeepFrom(|blocks|, t.lru.capacity);
      TrimOutcome(t, s, blocks);
      PromptRefused(t, s, n, keepFrom, 0);
      if i: nat :| RefusesAt(t, s, n, keepFrom, i) { assert 0 <= i && RefusesAt(t, s, n, keepFrom, i); }
    }
  }

  /** What staging the partial last block raises after `n` prompt blocks were handed over. */
  function TailFailure<T>(t: Tier<T>, s: nat, n: nat): Option<Failure>
    requires t.lru.Valid()
  {
    var keepFrom := KeepFrom(n, t.lru.capacity);
    var order := Speculate(t.lru, KeptKeys(s, keepFrom, n), {}, true).lru.order;
    if Key(s, n) in t.lru.slot || ArenaTaken(t, s, keepFrom, n) < |t.lru.free| then None
    else if order == [] then Some(NoArena)
    else
      var v := order[0];
      if t.writeThrough && v !in t.hostSlots && !(v.seqId == s && v.block < n) then Some(NoBackup)
      else if !t.writeThrough && |t.cpuFree| <= HostTaken(t, s, keepFrom, n) then Some(PoolFull)
      else if PromptRow(t, keepFrom, n, v.block) in {OnGpu, Evicting} then None
      else Some(BadTransition)
  }

  lemma TailFails<T>(t: Tier<T>, s: nat, n: nat, u: Tier<T>)
    requires t.lru.Valid() && HandedTo(t, s, KeepFrom(n, t.lru.capacity), n, u)
    ensures RoomFailure(u, Key(s, n), {}) == TailFailure(t, s, n)
  {
    hide PoolOk, AllSized, Lru.Valid, Speculate, KeptKeys, HostTaken, ArenaTaken;
  }

  // ------------------------------------------------------------------ any operation

  /** What an operation raises, read off the state before it. */
  ghost function StepFailure<T>(t: Tier<T>, op: Op<T>): Option<Failure>
    requires Shaped(t)
  {
    match op
    case OpFill(key, _) => Either(RoomFailure(t, key, {}), MirrorFailure(t, key))
    case OpLive(key, _) => RoomFailure(t, key, {})
    case OpAppend(s, pos, _, _) =>
      var key := Key(s, pos / t.blockSize);
      Either(RoomFailure(t, key, {}), if pos % t.blockSize == t.blockSize - 1 then MirrorFailure(t, key) else None)
    case OpEnsure(s, ids, keep) =>
      TouchedShaped(t, KeysOf(s, ids), KeysOf(s, keep));
      PassFailure(Touched(t, KeysOf(s, ids), KeysOf(s, keep)), s, KeysOf(s, ids), false, 0)
    case OpPrefetch(s, ids) => PassFailure(t, s, KeysOf(s, ids), true, 0)
    case OpPrevSelected(_, _) => None
    case OpTrim(s, blocks) =>
      if s in t.trimmed then None else PromptFailure(t, s, |blocks|, KeepFrom(|blocks|, t.lru.capacity), 0)
    case OpIngest(s, blocks, tail) =>
      if s in t.trimmed then None
      else Either(PromptFailure(t, s, |blocks|, KeepFrom(|blocks|, t.lru.capacity), 0),
                  if |tail.k| > 0 then TailFailure(t, s, |blocks|) else None)
    case OpRelease(_, _) => None
  }

  lemma IngestOutcome<T>(t: Tier<T>, s: nat, blocks: seq<KV<T>>, tail: KV<T>)
    requires Shaped(t) && AllSized(blocks, t.blockSize) && |tail.k| == |tail.v| < t.blockSize && s !in t.trimmed
    ensures Raised(Ingest(t, s, blocks, tail)) == StepFailure(t, OpIngest(s, blocks, tail))
  {
    hide PoolOk, AllSized, Lru.Valid, Trim, Stage, HandedTo, PromptFailure, TailFailure, RoomFailure;
    TrimOutcome(t, s, blocks);
    if Trim(t, s, blocks).Ok? {
      var u := Trim(t, s, blocks).state;
      TrimShaped(t, s, blocks);
      TailFails(t, s, |blocks|, u);
      if |tail.k| > 0 { StageFails(u, Key(s, |blocks|), tail); }
    }
  }

  /** Exactly what every operation raises, in any state and whatever sequences are cached. */
  lemma StepOutcome<T>(t: Tier<T>, op: Op<T>)
    requires Shaped(t) && WellShaped(t, op)
    ensures Raised(Step(t, op)) == StepFailure(t, op)
  {
    hide PoolOk, Lru.Valid, AllSized, Fill, WriteLive, AppendAt;
    hide EnsureAll, Prefetch, Trim, Ingest, Release, ListsCopies;
    hide RoomFailure, MirrorFailure, PassFailure, PromptFailure, TailFailure, Touched, HandedTo;
    match op
    case OpFill(key, kv) => WritesFail(t, key, kv);
    case OpLive(key, kv) => WritesFail(t, key, kv);
    case OpAppend(s, pos, kRow, vRow) => AppendFails(t, Key(s, pos / t.blockSize), pos % t.blockSize, kRow, vRow);
    case OpEnsure(s, ids, keep) =>
      TouchedShaped(t, KeysOf(s, ids), KeysOf(s, keep));
      PassOutcome(Touched(t, KeysOf(s, ids), KeysOf(s, keep)), s, KeysOf(s, ids));
    case OpPrefetch(s, ids) => PassOutcome(t, s, KeysOf(s, ids));
    case OpPrevSelected(_, _) =>
    case OpTrim(s, blocks) => if s in t.trimmed { SecondTrim(t, s, blocks); } else { TrimOutcome(t, s, blocks); }
    case OpIngest(s, blocks, tail) =>
      if s in t.trimmed { SecondIngest(t, s, blocks, tail); } else { IngestOutcome(t, s, blocks, tail); }
    case OpRelease(_, _) =>
  }
}
