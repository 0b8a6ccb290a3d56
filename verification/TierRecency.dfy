/**
 The arena of a layer is a least-recently-used cache of blocks. Every operation uses, demotes or drops certain blocks in
 a certain order, and nothing else about it matters for eviction: over every run from a new layer, whatever must make
 room is the block used longest ago among those not protected.
 */
module TierRecency {
  import opened SlotMap
  import opened WorkingSet
  import opened Recency
  import opened TierModel
  import opened TierTransparency
  import opened TierPlacement
  import opened TierHandOver

  // ------------------------------------------------------------------ the calls an operation makes

  /** What is held is used, in order. */
  ghost function Touching(held: map<Key, nat>, keys: seq<Key>): seq<Call> {
    if keys == [] then [] else (if keys[0] in held then [Using(keys[0], {})] else []) + Touching(held, keys[1..])
  }

  /** Each key is used, and demoted again unless it is trusted. */
  ghost function Loading(keys: seq<Key>, protected: set<Key>, trusted: bool): seq<Call> {
    if keys == [] then []
    else [Using(keys[0], protected)] + (if trusted then [] else [Demoting(keys[0])]) +
         Loading(keys[1..], protected, trusted)
  }

  /** Blocks `b` to `n` of a prompt. */
  ghost function Keeping(s: nat, b: nat, n: nat): seq<Call>
    decreases n - b
  {
    if b >= n then [] else [Using(Key(s, b), {})] + Keeping(s, b + 1, n)
  }

  ghost function Dropping(keys: seq<Key>): seq<Call> {
    if keys == [] then [] else [Freeing(keys[0])] + Dropping(keys[1..])
  }

  /** A prompt keeps as many of its last blocks as leave one slot of the arena. */
  ghost function KeepingLast(capacity: nat, s: nat, n: nat): seq<Call> {
    Keeping(s, if n < capacity then 0 else n + 1 - capacity, n)
  }

  /** The calls to the slot map that one operation amounts to. */
  ghost function CallsOf<T>(t: Tier<T>, op: Op<T>): seq<Call>
    requires t.blockSize > 0
  {
    match op
    case OpFill(key, _) => [Using(key, {})]
    case OpLive(key, _) => [Using(key, {})]
    case OpAppend(s, pos, _, _) => [Using(Key(s, pos / t.blockSize), {})]
    case OpEnsure(s, ids, keep) =>
      Touching(t.lru.slot, KeysOf(s, keep)) + Touching(t.lru.slot, KeysOf(s, ids)) +
      Loading(KeysOf(s, ids), ProtectedKeys(t, s), true)
    case OpPrefetch(s, ids) => Loading(KeysOf(s, ids), ProtectedKeys(t, s), t.prefetchTouch)
    case OpPrevSelected(_, _) => []
    case OpTrim(s, blocks) => if s in t.trimmed then [] else KeepingLast(t.lru.capacity, s, |blocks|)
    case OpIngest(s, blocks, tail) =>
      if s in t.trimmed then []
      else KeepingLast(t.lru.capacity, s, |blocks|) + if |tail.k| > 0 then [Using(Key(s, |blocks|), {})] else []
    case OpRelease(s, _) => Dropping(SeqKeys(t.lru.order, s))
  }

  // ------------------------------------------------------------------ serving a list of calls

  ghost function Serve(l: Lru, calls: seq<Call>): (m: Lru)
    requires l.Valid() && l.capacity > 0
    ensures m.Valid() && m.capacity == l.capacity
    decreases |calls|
  {
    if calls == [] then l else Serve(After(l, calls[0]), calls[1..])
  }

  lemma {:induction false} ServeAppend(l: Lru, a: seq<Call>, b: seq<Call>)
    requires l.Valid() && l.capacity > 0
    ensures Serve(l, a + b) == Serve(Serve(l, a), b)
    decreases |a|
  {
    hide Lru.Valid, After;
    if a == [] {
      assert a + b == b;
    } else {
      assert (a + b)[1..] == a[1..] + b;
      ServeAppend(After(l, a[0]), a[1..], b);
    }
  }

  lemma ServeOne(l: Lru, c: Call)
    requires l.Valid() && l.capacity > 0
    ensures Serve(l, [c]) == After(l, c)
  {
    hide Lru.Valid, After;
  }

  lemma {:induction false} ServeIsTable(l: Lru, calls: seq<Call>)
    requires l.Valid() && l.capacity > 0
    ensures Serve(l, calls) == Table(l, calls, |calls|)
  {
    hide Lru.Valid, After;
    if calls != [] {
      var n := |calls| - 1;
      var init, last := calls[..n], calls[n];
      assert calls == init + [last];
      ServeIsTable(l, init);
      ServeAppend(l, init, [last]);
      ServeOne(Serve(l, init), last);
      TablePrefix(l, init, [last], n);
    }
  }

  lemma {:induction false} TablePrefix(l: Lru, a: seq<Call>, b: seq<Call>, n: nat)
    requires l.Valid() && l.capacity > 0 && n <= |a|
    ensures Table(l, a + b, n) == Table(l, a, n)
  {
    hide Lru.Valid, After;
    if n > 0 { TablePrefix(l, a, b, n - 1); }
  }

  // ------------------------------------------------------------------ operation by operation

  lemma {:induction false} TouchServes(l: Lru, keys: seq<Key>)
    requires l.Valid() && l.capacity > 0
    ensures TouchAll(l, keys) == Serve(l, Touching(l.slot, keys))
    decreases |keys|
  {
    hide Lru.Valid, Add;
    if keys != [] {
      var m := if keys[0] in l.slot then Touch(l, keys[0]) else l;
      if keys[0] in l.slot {
        TouchValid(l, keys[0]);
        UsedHeld(l, keys[0]);
      }
      TouchServes(m, keys[1..]);
      var rest := Touching(l.slot, keys[1..]);
      assert m.slot == l.slot;
      if keys[0] in l.slot {
        assert Touching(l.slot, keys)[0] == Using(keys[0], {}) && Touching(l.slot, keys)[1..] == rest;
      } else {
        assert Touching(l.slot, keys) == rest;
      }
    }
  }

  lemma UsedHeld(l: Lru, k: Key)
    requires l.Valid() && l.capacity > 0 && k in l.slot
    ensures After(l, Using(k, {})) == Touch(l, k)
  {
    hide Lru.Valid;
  }

  lemma {:induction false} PassServes(l: Lru, keys: seq<Key>, protected: set<Key>, trusted: bool)
    requires l.Valid() && l.capacity > 0
    ensures Speculate(l, keys, protected, trusted).lru == Serve(l, Loading(keys, protected, trusted))
    decreases |keys|
  {
    hide Lru.Valid, Add;
    if keys != [] {
      AddValid(l, keys[0], protected);
      var m := Add(l, keys[0], protected).value.lru;
      TouchValid(m, keys[0]);
      var rest := Loading(keys[1..], protected, trusted);
      PassServes(if trusted then m else Demote(m, keys[0]), keys[1..], protected, trusted);
      if trusted {
        assert Loading(keys, protected, trusted) == [Using(keys[0], protected)] + rest;
      } else {
        var front := [Using(keys[0], protected)] + [Demoting(keys[0])];
        assert Loading(keys, protected, trusted) == front + rest;
        ServeAppend(l, front, rest);
        ServeAppend(l, [Using(keys[0], protected)], [Demoting(keys[0])]);
        ServeOne(l, Using(keys[0], protected));
        ServeOne(m, Demoting(keys[0]));
      }
    }
  }

  lemma {:induction false} DropServes(l: Lru, keys: seq<Key>)
    requires l.Valid() && l.capacity > 0
    ensures FreeAll(l, keys) == Serve(l, Dropping(keys))
    decreases |keys|
  {
    hide Lru.Valid;
    if keys != [] {
      if keys[0] in l.slot { FreeValid(l, keys[0]); }
      DropServes(After(l, Freeing(keys[0])), keys[1..]);
    }
  }

  lemma WriteServes<T>(t: Tier<T>, key: Key, kv: KV<T>)
    requires Shaped(t) && t.lru.capacity > 0 && Sized(kv, t.blockSize)
    ensures Fill(t, key, kv).Ok? ==> Fill(t, key, kv).state.lru == Serve(t.lru, [Using(key, {})])
    ensures WriteLive(t, key, kv).Ok? ==> WriteLive(t, key, kv).state.lru == Serve(t.lru, [Using(key, {})])
  {
    hide PoolOk, AllSized, Lru.Valid, Place, Add;
    PlaceShaped(t, key, {});
    ServeOne(t.lru, Using(key, {}));
    if Place(t, key, {}).Placed? { PlaceLru(t, key, {}); }
  }

  lemma AppendServes<T>(t: Tier<T>, key: Key, offset: nat, kRow: T, vRow: T)
    requires Shaped(t) && t.lru.capacity > 0 && offset < t.blockSize && AppendAt(t, key, offset, kRow, vRow).Ok?
    ensures AppendAt(t, key, offset, kRow, vRow).state.lru == Serve(t.lru, [Using(key, {})])
  {
    hide PoolOk, Lru.Valid, Place, Add;
    PlaceShaped(t, key, {});
    ServeOne(t.lru, Using(key, {}));
    PlaceLru(t, key, {});
  }

  lemma StageServes<T>(t: Tier<T>, key: Key, rows: KV<T>)
    requires Shaped(t) && t.lru.capacity > 0 && |rows.k| == |rows.v| <= t.blockSize && Stage(t, key, rows).Ok?
    ensures Stage(t, key, rows).state.lru == Serve(t.lru, [Using(key, {})])
  {
    hide PoolOk, Lru.Valid, Place, Add;
    PlaceShaped(t, key, {});
    ServeOne(t.lru, Using(key, {}));
    PlaceLru(t, key, {});
  }

  lemma RequestServes<T>(t: Tier<T>, s: nat, ids: seq<nat>, keep: seq<nat>)
    requires Shaped(t) && t.lru.capacity > 0 && EnsureResident(t, s, ids, keep).Ok?
    ensures EnsureResident(t, s, ids, keep).state.lru == Serve(t.lru, CallsOf(t, OpEnsure(s, ids, keep)))
  {
    hide PoolOk, AllSized, Lru.Valid, EnsureAll, Speculate, TouchAll, Touching, Loading;
    var a, b := KeysOf(s, keep), KeysOf(s, ids);
    var u := Touched(t, b, a);
    TouchedShaped(t, b, a);
    EnsureAllIsReload(u, s, b);
    PassServes(u.lru, b, ProtectedKeys(t, s), true);
    TouchServes(t.lru, a);
    TouchAllValid(t.lru, a);
    TouchServes(TouchAll(t.lru, a), b);
    ServeAppend(t.lru, Touching(t.lru.slot, a), Touching(t.lru.slot, b));
    ServeAppend(t.lru, Touching(t.lru.slot, a) + Touching(t.lru.slot, b), Loading(b, ProtectedKeys(t, s), true));
  }

  lemma GuessServes<T>(t: Tier<T>, s: nat, ids: seq<nat>)
    requires Shaped(t) && t.lru.capacity > 0 && Prefetch(t, KeysOf(s, ids)).Ok?
    ensures Prefetch(t, KeysOf(s, ids)).state.lru == Serve(t.lru, CallsOf(t, OpPrefetch(s, ids)))
  {
    hide PoolOk, AllSized, Lru.Valid, Prefetch, Speculate, Loading;
    PrefetchIsSpeculation(t, s, KeysOf(s, ids));
    PassServes(t.lru, KeysOf(s, ids), ProtectedKeys(t, s), t.prefetchTouch);
  }

  lemma TrimBlockLru<T>(t: Tier<T>, key: Key, kv: KV<T>, kept: bool)
    requires Shaped(t) && t.lru.capacity > 0 && Sized(kv, t.blockSize) && TrimBlock(t, key, kv, kept).Ok?
    ensures TrimBlock(t, key, kv, kept).state.lru == if kept then After(t.lru, Using(key, {})) else t.lru
  {
    hide PoolOk, AllSized, Lru.Valid, Add;
    AddValid(t.lru, key, {});
  }

  lemma {:induction false} TrimServes<T>(t: Tier<T>, s: nat, blocks: seq<KV<T>>, keepFrom: nat, b: nat)
    requires Shaped(t) && t.lru.capacity > 0 && AllSized(blocks, t.blockSize) && b <= |blocks|
    requires TrimFrom(t, s, blocks, keepFrom, b).Ok?
    ensures TrimFrom(t, s, blocks, keepFrom, b).state.lru ==
            Serve(t.lru, Keeping(s, if b < keepFrom then keepFrom else b, |blocks|))
    decreases |blocks| - b
  {
    hide PoolOk, Lru.Valid, TrimBlock, After;
    if b < |blocks| {
      var key, kept := Key(s, b), b >= keepFrom;
      TrimBlockShaped(t, key, blocks[b], kept);
      TrimBlockLru(t, key, blocks[b], kept);
      TrimServes(TrimBlock(t, key, blocks[b], kept).state, s, blocks, keepFrom, b + 1);
    }
  }

  lemma HandOverServes<T>(t: Tier<T>, s: nat, blocks: seq<KV<T>>)
    requires Shaped(t) && t.lru.capacity > 0 && AllSized(blocks, t.blockSize) && s !in t.trimmed
    requires Trim(t, s, blocks).Ok?
    ensures Trim(t, s, blocks).state.lru == Serve(t.lru, KeepingLast(t.lru.capacity, s, |blocks|))
  {
    hide PoolOk, AllSized, Lru.Valid, TrimFrom, Keeping;
    TrimServes(t.(trimmed := t.trimmed + {s}), s, blocks, KeepFrom(|blocks|, t.lru.capacity), 0);
  }

  lemma IngestServes<T>(t: Tier<T>, s: nat, blocks: seq<KV<T>>, tail: KV<T>)
    requires Shaped(t) && t.lru.capacity > 0 && AllSized(blocks, t.blockSize) && |tail.k| == |tail.v| < t.blockSize
    requires s !in t.trimmed && Ingest(t, s, blocks, tail).Ok?
    ensures Ingest(t, s, blocks, tail).state.lru == Serve(t.lru, CallsOf(t, OpIngest(s, blocks, tail)))
  {
    hide PoolOk, AllSized, Lru.Valid, Trim, Stage, KeepingLast;
    HandOverServes(t, s, blocks);
    TrimShaped(t, s, blocks);
    var u, front, key := Trim(t, s, blocks).state, KeepingLast(t.lru.capacity, s, |blocks|), Key(s, |blocks|);
    if |tail.k| > 0 {
      StageServes(u, key, tail);
      ServeAppend(t.lru, front, [Using(key, {})]);
    } else {
      assert front + [] == front;
    }
  }

  /** An operation leaves the slot map that its calls make of it. */
  lemma StepCalls<T>(t: Tier<T>, op: Op<T>)
    requires Shaped(t) && t.lru.capacity > 0 && WellShaped(t, op) && Step(t, op).Ok?
    ensures Step(t, op).state.lru == Serve(t.lru, CallsOf(t, op))
  {
    hide PoolOk, AllSized, Lru.Valid, Fill, WriteLive, AppendAt, EnsureResident, Prefetch, Trim, Ingest;
    match op
    case OpFill(key, kv) => WriteServes(t, key, kv);
    case OpLive(key, kv) => WriteServes(t, key, kv);
    case OpAppend(s, pos, kRow, vRow) =>
      AppendServes(t, Key(s, pos / t.blockSize), pos % t.blockSize, kRow, vRow);
    case OpEnsure(s, ids, keep) => RequestServes(t, s, ids, keep);
    case OpPrefetch(s, ids) => GuessServes(t, s, ids);
    case OpPrevSelected(_, _) =>
    case OpTrim(s, blocks) => if s in t.trimmed { MarkedSettled(t, s, op); } else { HandOverServes(t, s, blocks); }
    case OpIngest(s, blocks, tail) =>
      if s in t.trimmed { MarkedSettled(t, s, op); } else { IngestServes(t, s, blocks, tail); }
    case OpRelease(s, _) => DropServes(t.lru, SeqKeys(t.lru.order, s));
  }

  // ------------------------------------------------------------------ whole runs

  /** The calls of the first `n` operations of a run. */
  ghost function CallsTo<T>(ts: seq<Tier<T>>, ops: seq<Op<T>>, n: nat): seq<Call>
    requires Returned(ts, ops) && n <= |ops|
  {
    if n == 0 then []
    else
      assert Returns(ts[n - 1], ops[n - 1], ts[n]);
      CallsTo(ts, ops, n - 1) + CallsOf(ts[n - 1], ops[n - 1])
  }

  lemma {:induction false} RunServes<T>(ts: seq<Tier<T>>, ops: seq<Op<T>>, n: nat)
    requires Returned(ts, ops) && n <= |ops| && ts[0].lru.capacity > 0
    ensures ts[0].lru.Valid() && ts[n].lru == Serve(ts[0].lru, CallsTo(ts, ops, n))
  {
    hide PoolOk, AllSized, Lru.Valid, New, Step, WellShaped, CallsOf;
    if n > 0 {
      RunServes(ts, ops, n - 1);
      assert Returns(ts[n - 1], ops[n - 1], ts[n]);
      StepCalls(ts[n - 1], ops[n - 1]);
      ServeAppend(ts[0].lru, CallsTo(ts, ops, n - 1), CallsOf(ts[n - 1], ops[n - 1]));
    }
  }

  /**
   Over every run from a new layer, for any number of sequences: what a full arena gives up for a block it does not
   hold is, of the blocks that are not protected, the one used longest ago, and of all blocks if all are protected.
   */
  lemma EvictsLeastRecent<T>(ts: seq<Tier<T>>, ops: seq<Op<T>>, n: nat, key: Key, protected: set<Key>, x: Key)
    requires Returned(ts, ops) && n <= |ops| && ts[0].lru.capacity > 0 && Shaped(ts[n])
    requires key !in ts[n].lru.slot && ts[n].lru.free == [] && x in ts[n].lru.slot
    requires Place(ts[n], key, protected).Placed?
    ensures var calls := CallsTo(ts, ops, n);
            exists v :: && v in ts[n].lru.slot && v !in Place(ts[n], key, protected).state.lru.slot
                        && (x !in protected ==> v !in protected)
                        && (x !in protected || v in protected ==>
                              LastUse(calls, |calls|, v) <= LastUse(calls, |calls|, x))
  {
    hide PoolOk, AllSized, Lru.Valid, Place, Add, LastUse;
    var calls, l := CallsTo(ts, ops, n), ts[n].lru;
    RunServes(ts, ops, n);
    ServeIsTable(ts[0].lru, calls);
    VictimIsLeastRecent(ts[0].lru, calls, |calls|, key, protected, x);
    PlaceLru(ts[n], key, protected);
    AddValid(l, key, protected);
    var v := Add(l, key, protected).value.evicted.value;
    assert v in l.slot && v !in Add(l, key, protected).value.lru.slot;
  }
}
