/**
 The cache token by token. What a position of a sequence holds is decided by the history of calls alone: the last call
 that wrote it, not the blocks, slots and tiers in between. A position read out of the arena after a request is the
 pair of rows that call was given.
 */
module TierTokens {
  import opened Arithmetic
  import opened Lists
  import opened SlotMap
  import opened WorkingSet
  import opened TierModel
  import opened TierTransparency
  import opened TierSuccess
  import opened TierService
  import opened TierSafety
  import opened TierAccounts
  import opened TierDecodeLoop
  import opened TierHandOver

  /** Key row and value row of one token. */
  datatype Token<T> = Token(k: T, v: T)

  /** The token at `offset` of a block, if the block has that many rows. */
  function TokenOf<T>(kv: KV<T>, offset: nat): Option<Token<T>> {
    if offset < |kv.k| && offset < |kv.v| then Some(Token(kv.k[offset], kv.v[offset])) else None
  }

  function TokenAt<T>(p: Plain<T>, size: nat, s: nat, pos: nat): Option<Token<T>>
    requires size > 0
  {
    var key := Key(s, pos / size);
    if key in p then TokenOf(p[key], pos % size) else None
  }

  /** What position `pos` of `s` holds after a call, given what it held before and whether `s` was handed over. */
  ghost function Overwritten<T>(op: Op<T>, size: nat, handed: bool, was: Option<Token<T>>, s: nat, pos: nat)
    : Option<Token<T>>
    requires size > 0
  {
    var block, offset := pos / size, pos % size;
    match op
    case OpFill(key, kv) => if key == Key(s, block) then TokenOf(kv, offset) else was
    case OpLive(key, kv) => if key == Key(s, block) then TokenOf(kv, offset) else was
    case OpAppend(r, at, kRow, vRow) =>
      if r == s && at == pos then Some(Token(kRow, vRow))
      else if r == s && at == block * size then None
      else was
    case OpTrim(r, blocks) => if r == s && !handed && block < |blocks| then TokenOf(blocks[block], offset) else was
    case OpIngest(r, blocks, tail) =>
      if r != s || handed || block > |blocks| then was
      else if block < |blocks| then TokenOf(blocks[block], offset)
      else TokenOf(tail, offset)
    case OpRelease(r, _) => if r == s then None else was
    case _ => was
  }

  lemma {:induction false} BlockOfPrompt<T>(p: Plain<T>, s: nat, blocks: seq<KV<T>>, b: nat, key: Key)
    requires b <= |blocks|
    ensures var q := WithBlocks(p, s, blocks, b);
            && (key.seqId == s && b <= key.block < |blocks| ==> key in q && q[key] == blocks[key.block])
            && (key.seqId != s || key.block < b || key.block >= |blocks| ==>
                  (key in q <==> key in p) && (key in p ==> q[key] == p[key]))
    decreases |blocks| - b
  {
    if b < |blocks| { BlockOfPrompt(p[Key(s, b) := blocks[b]], s, blocks, b + 1, key); }
  }

  lemma Positions(size: nat, pos: nat, at: nat)
    requires size > 0
    ensures pos == pos / size * size + pos % size
    ensures at / size == pos / size && at % size == pos % size ==> at == pos
    ensures at / size == pos / size && at % size == 0 <==> at == pos / size * size
  {
    var b := pos / size;
    assert pos == b * size + pos % size;
    assert at == at / size * size + at % size;
    if at == b * size { DivMod(size, b, 0); }
  }

  lemma AppendSeen<T>(t: Tier<T>, p: Plain<T>, r: nat, at: nat, kRow: T, vRow: T, s: nat, pos: nat)
    requires t.blockSize > 0 && CanAppend(t, p, Key(r, at / t.blockSize), at % t.blockSize)
    ensures var op := OpAppend(r, at, kRow, vRow);
            TokenAt(PlainStep(t, p, op), t.blockSize, s, pos) ==
            Overwritten(op, t.blockSize, s in t.trimmed, TokenAt(p, t.blockSize, s, pos), s, pos)
  {
    Positions(t.blockSize, pos, at);
  }

  /** One call on the plain map, seen from one position. */
  lemma StepToken<T>(t: Tier<T>, p: Plain<T>, op: Op<T>, s: nat, pos: nat)
    requires Shaped(t) && WellShaped(t, op) && Disciplined(t, p, op)
    ensures TokenAt(PlainStep(t, p, op), t.blockSize, s, pos) ==
            Overwritten(op, t.blockSize, s in t.trimmed, TokenAt(p, t.blockSize, s, pos), s, pos)
  {
    hide AllSized, PoolOk, Lru.Valid;
    match op
    case OpAppend(r, at, kRow, vRow) => AppendSeen(t, p, r, at, kRow, vRow, s, pos);
    case OpTrim(r, blocks) => BlockOfPrompt(p, r, blocks, 0, Key(s, pos / t.blockSize));
    case OpIngest(r, blocks, tail) => BlockOfPrompt(p, r, blocks, 0, Key(s, pos / t.blockSize));
    case _ =>
  }

  // ------------------------------------------------------------------ whole runs

  /** What position `pos` of sequence `s` holds after `n` calls. */
  ghost function History<T>(ops: seq<Op<T>>, n: nat, size: nat, s: nat, pos: nat): Option<Token<T>>
    requires size > 0 && n <= |ops|
  {
    if n == 0 then None
    else Overwritten(ops[n - 1], size, Handed(ops, n - 1, s), History(ops, n - 1, size, s, pos), s, pos)
  }

  /** A run from a new layer, as long as no call raises. */
  ghost predicate RunFromNew<T>(ts: seq<Tier<T>>, ps: seq<Plain<T>>, ops: seq<Op<T>>) {
    Run(ts, ps, ops) && Shaped(ts[0]) && New(ts[0]) && ps[0] == map[]
  }

  lemma RunReturned<T>(ts: seq<Tier<T>>, ps: seq<Plain<T>>, ops: seq<Op<T>>)
    requires RunFromNew(ts, ps, ops)
    ensures Returned(ts, ops)
  {
    hide Shaped, New, Step, WellShaped, Disciplined, PlainStep;
    forall i | 0 <= i < |ops| ensures Returns(ts[i], ops[i], ts[i + 1]) {
      assert Follows(ts[i], ps[i], ops[i], ts[i + 1], ps[i + 1]);
    }
  }

  /** After any number of calls every position of every sequence holds what its history says. */
  lemma {:induction false} TokensAreHistory<T>(ts: seq<Tier<T>>, ps: seq<Plain<T>>, ops: seq<Op<T>>, n: nat, s: nat,
                                               pos: nat)
    requires RunFromNew(ts, ps, ops) && n <= |ops|
    ensures ts[n].blockSize == ts[0].blockSize > 0
    ensures TokenAt(ps[n], ts[0].blockSize, s, pos) == History(ops, n, ts[0].blockSize, s, pos)
  {
    hide PoolOk, AllSized, Lru.Valid, New, Step, WellShaped, Disciplined, PlainStep, Overwritten, Handed;
    if n > 0 {
      TokensAreHistory(ts, ps, ops, n - 1, s, pos);
      assert Follows(ts[n - 1], ps[n - 1], ops[n - 1], ts[n], ps[n]);
      StepToken(ts[n - 1], ps[n - 1], ops[n - 1], s, pos);
      RunReturned(ts, ps, ops);
      MarkIsHistory(ts, ops, n - 1, s);
      StepKeepsSize(ts[n - 1], ops[n - 1]);
    }
  }

  lemma RunRepresents<T>(ts: seq<Tier<T>>, ps: seq<Plain<T>>, ops: seq<Op<T>>, n: nat)
    requires RunFromNew(ts, ps, ops) && n <= |ops|
    ensures Represents(ts[n], ps[n])
  {
    hide StoredBut, Step, PlainStep, Disciplined, WellShaped;
    EmptyRepresents(ts[0]);
    RunRefines(ts, ps, ops, n);
  }

  /** The request fits and spares what it needs, and block `b` is one it needs. */
  ghost predicate Asks<T>(t: Tier<T>, s: nat, ids: seq<nat>, keep: seq<nat>, b: nat) {
    var need := Need(t.lru, KeysOf(s, ids), KeysOf(s, keep));
    && t.lru.capacity > 0 && |need| <= t.lru.capacity && Key(s, b) in need
    && Spared(t.lru, need, KeysOf(s, ids), ProtectedKeys(t, s))
  }

  /** The arena holds `token` at `pos`. */
  ghost predicate InArena<T>(t: Tier<T>, s: nat, pos: nat, token: Token<T>)
    requires t.blockSize > 0
  {
    var key := Key(s, pos / t.blockSize);
    key in t.lru.slot && t.lru.slot[key] < |t.gpu| && TokenOf(t.gpu[t.lru.slot[key]], pos % t.blockSize) == Some(token)
  }

  lemma TokenReadsBack<T>(t: Tier<T>, p: Plain<T>, s: nat, ids: seq<nat>, keep: seq<nat>, pos: nat, token: Token<T>)
    requires Represents(t, p) && Asks(t, s, ids, keep, pos / t.blockSize) && EnsureResident(t, s, ids, keep).Ok?
    requires TokenAt(p, t.blockSize, s, pos) == Some(token)
    ensures var u := EnsureResident(t, s, ids, keep).state; u.blockSize == t.blockSize && InArena(u, s, pos, token)
  {
    hide StoredBut, PoolOk, AllSized, Lru.Valid, EnsureResident, Need, Spared;
    RepresentsShaped(t, p);
    ReturnedReadsBack(t, p, s, ids, keep, Key(s, pos / t.blockSize));
    StepKeepsSize(t, OpEnsure(s, ids, keep));
  }

  /**
   Read your writes: when a request for a working set that fits returns, every written position of every selected block
   and of the live block is in the arena with the rows of the last call that wrote it, over every run from a new layer.
   */
  lemma SelectedTokensReadBack<T>(ts: seq<Tier<T>>, ps: seq<Plain<T>>, ops: seq<Op<T>>, n: nat, s: nat, ids: seq<nat>,
                                  keep: seq<nat>, pos: nat)
    requires RunFromNew(ts, ps, ops) && n <= |ops| && Shaped(ts[n]) && EnsureResident(ts[n], s, ids, keep).Ok?
    requires Asks(ts[n], s, ids, keep, pos / ts[n].blockSize) && History(ops, n, ts[n].blockSize, s, pos).Some?
    ensures var u := EnsureResident(ts[n], s, ids, keep).state;
            u.blockSize > 0 && InArena(u, s, pos, History(ops, n, ts[n].blockSize, s, pos).value)
  {
    hide Follows, New, StoredBut, PoolOk, AllSized, Lru.Valid, EnsureResident, History, Asks, InArena;
    RunRepresents(ts, ps, ops, n);
    TokensAreHistory(ts, ps, ops, n, s, pos);
    TokenReadsBack(ts[n], ps[n], s, ids, keep, pos, History(ops, n, ts[n].blockSize, s, pos).value);
  }

  // ------------------------------------------------------------------ the decode loop

  ghost function Contents<T>(run: seq<Moment<T>>): (ps: seq<Plain<T>>)
    ensures |ps| == |run| && forall i :: 0 <= i < |run| ==> ps[i] == run[i].p
  {
    seq(|run|, i requires 0 <= i < |run| => run[i].p)
  }

  lemma LoopIsRun<T>(run: seq<Moment<T>>, ops: seq<Op<T>>)
    requires Looped(run, ops)
    ensures RunFromNew(Layers(run), Contents(run), ops)
  {
    hide Step, WellShaped, Shaped, New, Decoding, Habit, Roomy, PlainStep, LastAfter, Disciplined;
    forall i | 0 <= i < |ops|
      ensures Follows(Layers(run)[i], Contents(run)[i], ops[i], Layers(run)[i + 1], Contents(run)[i + 1])
    {
      DecodeLoopNeverRaises(run, ops, i);
      assert Turned(run[i], ops[i], run[i + 1]);
      HabitProper(run[i].t, run[i].p, run[i].s, run[i].last, ops[i]);
    }
  }

  /**
   The decode loop reads its own tokens, and nothing is assumed to succeed: after every request of a run from a new
   layer, each position written so far in a selected block or in the live block is in the arena with the rows of the
   last call that wrote it.
   */
  lemma LoopTokensReadBack<T>(run: seq<Moment<T>>, ops: seq<Op<T>>, n: nat, size: nat, pos: nat, token: Token<T>)
    requires |run| == |ops| + 1 && n < |ops| && ops[n].OpEnsure? && size > 0
    requires pos / size in ops[n].ids || run[n].last == Live(Key(run[n].s, pos / size))
    requires History(ops, n, size, run[n].s, pos) == Some(token)
    requires Looped(run, ops) && run[0].t.blockSize == size
    ensures run[n + 1].t.blockSize == size && InArena(run[n + 1].t, run[n].s, pos, token)
  {
    hide Turned, New, Shaped, Follows, History, InArena, TokenAt, ReadsBack;
    var s := run[n].s;
    LoopIsRun(run, ops);
    TokensAreHistory(Layers(run), Contents(run), ops, n, s, pos);
    TokensAreHistory(Layers(run), Contents(run), ops, n + 1, s, pos);
    AskedReadsBack(run, ops, n, Key(s, pos / size));
    RowsHoldToken(run[n + 1].t, run[n].p, s, pos, token);
  }

  lemma AskedReadsBack<T>(run: seq<Moment<T>>, ops: seq<Op<T>>, n: nat, key: Key)
    requires Looped(run, ops) && n < |ops| && ops[n].OpEnsure?
    requires run[n].last == Live(key) || exists b :: b in ops[n].ids && key == Key(run[n].s, b)
    ensures ReadsBack(run[n + 1].t, run[n].p, key)
  {
    hide New, StoredBut, TracksBut, AccountedTo, PoolOk, AllSized, Lru.Valid, Step, Roomy, Habit, ReadsBack, WellShaped;
    assert Turned(run[n], ops[n], run[n + 1]);
    LiveBlockStays(run, ops, n);
    if run[n].last == Live(key) {
      DecodeLoopNeverRaises(run, ops, n + 1);
      LiveReads(run[n + 1].t, run[n + 1].p, key);
    }
  }

  lemma RowsHoldToken<T>(t: Tier<T>, p: Plain<T>, s: nat, pos: nat, token: Token<T>)
    requires t.blockSize > 0 && ReadsBack(t, p, Key(s, pos / t.blockSize))
    requires TokenAt(p, t.blockSize, s, pos) == Some(token)
    ensures InArena(t, s, pos, token)
  {
  }
}
