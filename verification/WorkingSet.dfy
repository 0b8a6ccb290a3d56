/**
 The two passes that make one decode step's blocks resident, at the level of the slot map: which blocks
 get evicted while the step's misses are reloaded. The code's stated promise is that no block the step
 needs is ever the victim. It holds exactly under `Spared`; plain LRU always meets it.
 */
module WorkingSet {
  import opened Lists
  import opened SlotMap

  /** Pass 1: every held key of `ks` becomes most recently used, in order. */
  function TouchAll(l: Lru, ks: seq<Key>): Lru
    decreases |ks|
  {
    if ks == [] then l
    else TouchAll(if ks[0] in l.slot then Touch(l, ks[0]) else l, ks[1..])
  }

  datatype Pass = Pass(lru: Lru, victims: seq<Key>)

  /**
   A pass over `ks`: held keys are touched again, missing ones are given a slot. Untrusted guesses are left first in
   line for eviction. Records every victim in order.
   */
  function Speculate(l: Lru, ks: seq<Key>, protected: set<Key>, trusted: bool): Pass
    requires l.Valid()
    decreases |ks|
  {
    AddValid(l, if ks == [] then Key(0, 0) else ks[0], protected);
    if ks == [] then Pass(l, [])
    else match Add(l, ks[0], protected)
      case None => Pass(l, [])
      case Some(Added(m, _, e)) =>
        TouchValid(m, ks[0]);
        var rest := Speculate(if trusted then m else Demote(m, ks[0]), ks[1..], protected, trusted);
        Pass(rest.lru, OptSeq(e) + rest.victims)
  }

  function OptSeq(e: Option<Key>): seq<Key> {
    if e.Some? then [e.value] else []
  }

  /** Pass 2 of a step: what is selected is trusted. */
  function Reload(l: Lru, ks: seq<Key>, protected: set<Key>): Pass
    requires l.Valid()
  {
    Speculate(l, ks, protected, true)
  }

  /** Both passes of one step: `ids` are the selected blocks, `keep` the live block. */
  function EnsurePass(l: Lru, ids: seq<Key>, keep: seq<Key>, protected: set<Key>): Pass
    requires l.Valid()
  {
    TouchAllValid(l, keep);
    TouchAllValid(TouchAll(l, keep), ids);
    Reload(TouchAll(TouchAll(l, keep), ids), ids, protected)
  }

  /** What the step must find in the arena: the selection, and the live blocks already there. */
  function Need(l: Lru, ids: seq<Key>, keep: seq<Key>): set<Key> {
    Elems(ids) + Elems(keep) * l.slot.Keys
  }

  /** The misses in the order they are first met. */
  function Misses(held: set<Key>, ks: seq<Key>): (r: seq<Key>)
    ensures forall k :: k in r <==> k in ks && k !in held
    ensures NoDup(r)
    decreases |ks|
  {
    if ks == [] then []
    else if ks[0] in held then Misses(held, ks[1..])
    else
      var rest := Misses(held + {ks[0]}, ks[1..]);
      NoDupCons(ks[0], rest);
      [ks[0]] + rest
  }

  /** Held blocks the step does not need and the policy does not protect: what reloading may displace freely. */
  function Spare(held: set<Key>, need: set<Key>, protected: set<Key>): set<Key> {
    held - need - protected
  }

  /**
   Enough free slots and spare blocks to take every miss, or else every needed block that could be looked
   at as a victim is itself protected (all held ones, and all reloaded ones but the last).
   */
  predicate SparedIn(held: set<Key>, free: nat, need: set<Key>, misses: seq<Key>, protected: set<Key>) {
    || |misses| <= free + |Spare(held, need, protected)|
    || Shielded(held, need, misses, protected)
  }

  predicate Shielded(held: set<Key>, need: set<Key>, misses: seq<Key>, protected: set<Key>) {
    held * need <= protected && forall i :: 0 <= i < |misses| - 1 ==> misses[i] in protected
  }

  predicate Spared(l: Lru, need: set<Key>, ks: seq<Key>, protected: set<Key>) {
    SparedIn(l.slot.Keys, |l.free|, need, Misses(l.slot.Keys, ks), protected)
  }

  ghost predicate AtTheBack(order: seq<Key>, need: set<Key>) {
    forall i, j :: 0 <= i < j < |order| && order[i] in need ==> order[j] in need
  }

  // ------------------------------------------------------------ the eviction order

  lemma {:induction false} WithoutAtTheBack(order: seq<Key>, need: set<Key>, k: Key)
    requires AtTheBack(order, need)
    ensures AtTheBack(Without(order, k), need)
  {
    if order != [] {
      WithoutAtTheBack(order[1..], need, k);
      if order[0] in need {
        assert forall j :: 0 < j < |order| ==> order[j] in need;
        assert forall y :: y in Without(order[1..], k) ==> y in need;
      }
    }
  }

  lemma TouchAtTheBack(order: seq<Key>, need: set<Key>, k: Key)
    requires AtTheBack(order, need)
    ensures AtTheBack(Without(order, k) + [k], need + {k})
    ensures k in need ==> AtTheBack(Without(order, k) + [k], need)
  {
    WithoutAtTheBack(order, need, k);
  }

  /** Touching changes recency only: which keys are held, and where, stays. */
  lemma {:induction false} TouchAllValid(l: Lru, ks: seq<Key>)
    requires l.Valid()
    ensures var m := TouchAll(l, ks);
            m.Valid() && m.slot == l.slot && m.free == l.free && m.capacity == l.capacity
    decreases |ks|
  {
    if ks != [] {
      if ks[0] in l.slot { TouchValid(l, ks[0]); }
      TouchAllValid(if ks[0] in l.slot then Touch(l, ks[0]) else l, ks[1..]);
    }
  }

  /** Touching moves the touched keys behind everything else. */
  lemma {:induction false} TouchAllAtTheBack(l: Lru, ks: seq<Key>, done: set<Key>)
    requires AtTheBack(l.order, done)
    ensures AtTheBack(TouchAll(l, ks).order, done + Elems(ks) * l.slot.Keys)
    decreases |ks|
  {
    if ks == [] {
      assert done + Elems(ks) * l.slot.Keys == done;
    } else if ks[0] in l.slot {
      TouchAtTheBack(l.order, done, ks[0]);
      TouchAllAtTheBack(Touch(l, ks[0]), ks[1..], done + {ks[0]});
      assert done + {ks[0]} + Elems(ks[1..]) * l.slot.Keys == done + Elems(ks) * l.slot.Keys;
    } else {
      TouchAllAtTheBack(l, ks[1..], done);
      assert done + Elems(ks[1..]) * l.slot.Keys == done + Elems(ks) * l.slot.Keys;
    }
  }

  /** The first evictable key is never a needed one while some spare key is held. */
  lemma {:induction false} VictimIsSpare(order: seq<Key>, need: set<Key>, protected: set<Key>, spare: Key)
    requires AtTheBack(order, need)
    requires spare in order && spare !in need && spare !in protected
    ensures Victim(order, protected) !in need && Victim(order, protected) !in protected
  {
    FirstOutsideSpare(order, need, protected, spare);
  }

  lemma {:induction false} FirstOutsideSpare(order: seq<Key>, need: set<Key>, protected: set<Key>, spare: Key)
    requires AtTheBack(order, need)
    requires spare in order && spare !in need && spare !in protected
    ensures FirstOutside(order, protected).Some? && FirstOutside(order, protected).value !in need
  {
    if order[0] !in protected {
      assert exists j :: 0 <= j < |order| && order[j] == spare;
    } else {
      FirstOutsideSpare(order[1..], need, protected, spare);
    }
  }

  /** A full arena that lacks a needed key holds some key that is not needed, and it is at the front. */
  lemma FrontNotNeeded(l: Lru, need: set<Key>, miss: Key)
    requires l.Valid() && l.free == [] && l.order != []
    requires AtTheBack(l.order, need)
    requires miss in need && miss !in l.slot && |need| <= l.capacity
    ensures l.order[0] !in need
  {
    ElemsSize(l.order);
    assert miss !in Elems(l.order);
    var both := Elems(l.order) + {miss};
    assert |both| == l.capacity + 1;
    if both <= need { SubsetSize(both, need); }
    var k :| k in both && k !in need;
    assert k in l.order;
  }

  // ------------------------------------------------------------ what reloading evicts

  /** One reload: the new arena state, seen as sets. */
  lemma AddSets(l: Lru, k: Key, protected: set<Key>, need: set<Key>)
    requires l.Valid() && l.capacity > 0 && k in need && AtTheBack(l.order, need)
    ensures Add(l, k, protected).Some? && AddedRight(l, k, Add(l, k, protected).value)
    ensures var Added(m, _, e) := Add(l, k, protected).value;
            && AtTheBack(m.order, need)
            && m.slot.Keys == (if e.Some? then l.slot.Keys - {e.value} else l.slot.Keys) + {k}
            && (e.Some? ==> e.value == Victim(l.order, protected))
  {
    AddValid(l, k, protected);
    if k in l.slot {
      TouchAtTheBack(l.order, need, k);
    } else if l.free == [] {
      WithoutAtTheBack(l.order, need, Victim(l.order, protected));
    }
  }

  lemma {:induction false} MissesSame(held: set<Key>, held': set<Key>, ks: seq<Key>)
    requires forall k :: k in ks ==> (k in held <==> k in held')
    ensures Misses(held, ks) == Misses(held', ks)
    decreases |ks|
  {
    if ks != [] {
      assert ks[0] in ks && forall k :: k in ks[1..] ==> k in ks;
      if ks[0] in held {
        MissesSame(held, held', ks[1..]);
      } else {
        MissesSame(held + {ks[0]}, held' + {ks[0]}, ks[1..]);
      }
    }
  }

  /** A reload that evicts nothing needed leaves the same misses to come. */
  lemma MissesNext(held: set<Key>, held': set<Key>, need: set<Key>, ks: seq<Key>, e: Option<Key>)
    requires ks != [] && Elems(ks) <= need
    requires held' == (if e.Some? then held - {e.value} else held) + {ks[0]}
    requires e.Some? ==> e.value !in need
    ensures Misses(held', ks[1..]) == if ks[0] in held then Misses(held, ks) else Misses(held, ks)[1..]
    ensures ks[0] !in held ==> Misses(held, ks) != [] && Misses(held, ks)[0] == ks[0]
  {
    forall k | k in ks[1..] ensures k in held + {ks[0]} <==> k in held' {
      assert k in Elems(ks);
    }
    MissesSame(held + {ks[0]}, held', ks[1..]);
    if ks[0] in held {
      assert held + {ks[0]} == held;
    }
  }

  /** What a full arena gives up: a spare block if it has one; else a needed one, unless those are all protected. */
  ghost predicate VictimRule(held: set<Key>, need: set<Key>, protected: set<Key>, v: Key) {
    && v in held
    && (Spare(held, need, protected) != {} ==> v in Spare(held, need, protected))
    && (Spare(held, need, protected) == {} ==> (v in need <==> !(held * need <= protected)))
  }

  /** One reload that spares the needed blocks neither settles nor spoils the outlook for the rest. */
  lemma SparedInNext(held: set<Key>, free: nat, held': set<Key>, free': nat,
                     need: set<Key>, misses: seq<Key>, protected: set<Key>, k: Key, e: Option<Key>)
    requires k in need && k !in held && misses != [] && misses[0] == k
    requires held' == (if e.Some? then held - {e.value} else held) + {k}
    requires if e.Some? then free == 0 == free' && VictimRule(held, need, protected, e.value) && e.value !in need
             else free' == free - 1
    ensures SparedIn(held', free', need, misses[1..], protected) == SparedIn(held, free, need, misses, protected)
  {
    if |misses| > 1 {
      SpareNext(held, free, held', free', need, |misses|, protected, k, e);
      ShieldNext(held, held', need, misses, protected, k, e);
    }
  }

  /** The reload uses up one free slot or one spare block, unless neither was left. */
  lemma SpareNext(held: set<Key>, free: nat, held': set<Key>, free': nat,
                  need: set<Key>, misses: nat, protected: set<Key>, k: Key, e: Option<Key>)
    requires k in need && misses > 1
    requires held' == (if e.Some? then held - {e.value} else held) + {k}
    requires if e.Some? then free == 0 == free' && VictimRule(held, need, protected, e.value) && e.value !in need
             else free' == free - 1
    ensures misses - 1 <= free' + |Spare(held', need, protected)| <==> misses <= free + |Spare(held, need, protected)|
  {
    var spare, spare' := Spare(held, need, protected), Spare(held', need, protected);
    if e.Some? && spare != {} {
      assert spare' == spare - {e.value};
    } else {
      assert spare' == spare;
    }
  }

  lemma ShieldNext(held: set<Key>, held': set<Key>, need: set<Key>, misses: seq<Key>, protected: set<Key>,
                   k: Key, e: Option<Key>)
    requires |misses| > 1 && misses[0] == k && k in need
    requires held' == (if e.Some? then held - {e.value} else held) + {k}
    requires e.Some? ==> e.value !in need
    ensures Shielded(held', need, misses[1..], protected) == Shielded(held, need, misses, protected)
  {
    var rest := misses[1..];
    assert held' * need == held * need + {k};
    assert forall i :: 0 <= i < |rest| - 1 ==> rest[i] == misses[i + 1];
    if Shielded(held', need, rest, protected) {
      forall i | 0 <= i < |misses| - 1 ensures misses[i] in protected {
        assert i == 0 || rest[i - 1] == misses[i];
      }
    }
  }

  lemma VictimFollowsRule(l: Lru, need: set<Key>, protected: set<Key>, miss: Key)
    requires l.Valid() && AtTheBack(l.order, need) && l.free == [] && l.order != []
    requires miss in need && miss !in l.slot && |need| <= l.capacity
    ensures VictimRule(l.slot.Keys, need, protected, Victim(l.order, protected))
  {
    var v := Victim(l.order, protected);
    assert l.slot.Keys == Elems(l.order);
    if s: Key :| s in Spare(Elems(l.order), need, protected) {
      VictimIsSpare(l.order, need, protected, s);
    } else {
      FrontNotNeeded(l, need, miss);
      if Elems(l.order) * need <= protected {
        forall x | x in l.order ensures x in protected {
          assert x !in Spare(Elems(l.order), need, protected);
        }
      } else {
        var x :| x in Elems(l.order) * need && x !in protected;
        assert v !in Spare(Elems(l.order), need, protected);
      }
    }
  }

  /** One reload, in terms of what the step needs. */
  lemma ReloadOne(l: Lru, need: set<Key>, ks: seq<Key>, protected: set<Key>)
    requires l.Valid() && AtTheBack(l.order, need) && l.capacity > 0
    requires ks != [] && Elems(ks) <= need && |need| <= l.capacity
    ensures Add(l, ks[0], protected).Some? && AddedRight(l, ks[0], Add(l, ks[0], protected).value)
    ensures var Added(m, _, e) := Add(l, ks[0], protected).value;
            && AtTheBack(m.order, need)
            && m.slot.Keys == (if e.Some? then l.slot.Keys - {e.value} else l.slot.Keys) + {ks[0]}
            && (Spared(l, need, ks, protected) ==> e.None? || e.value !in need)
            && (e.None? || e.value !in need ==> Spared(m, need, ks[1..], protected) == Spared(l, need, ks, protected))
  {
    var k := ks[0];
    assert k in Elems(ks);
    AddSets(l, k, protected, need);
    var Added(m, s, e) := Add(l, k, protected).value;
    var held, held' := l.slot.Keys, m.slot.Keys;
    if e.Some? { VictimFollowsRule(l, need, protected, k); }
    if e.None? || e.value !in need {
      MissesNext(held, held', need, ks, e);
      if k in held {
        assert held' == held;
      } else {
        SparedInNext(held, |l.free|, held', |m.free|, need, Misses(held, ks), protected, k, e);
      }
    }
  }

  lemma ReloadUnfold(l: Lru, ks: seq<Key>, protected: set<Key>)
    requires l.Valid() && ks != [] && Add(l, ks[0], protected).Some?
    requires Add(l, ks[0], protected).value.lru.Valid()
    ensures var Added(m, _, e) := Add(l, ks[0], protected).value;
            var rest := Reload(m, ks[1..], protected);
            && Reload(l, ks, protected).lru == rest.lru
            && Elems(Reload(l, ks, protected).victims) == (if e.Some? then {e.value} else {}) + Elems(rest.victims)
  {
  }

  /** Under `Spared`, reloading never evicts a needed block, and everything asked for ends up held. */
  lemma {:induction false} ReloadSpares(l: Lru, need: set<Key>, ks: seq<Key>, protected: set<Key>)
    requires l.Valid() && AtTheBack(l.order, need) && l.capacity > 0
    requires Elems(ks) <= need && |need| <= l.capacity
    requires Spared(l, need, ks, protected)
    ensures Elems(Reload(l, ks, protected).victims) !! need
    ensures l.slot.Keys * need + Elems(ks) <= Reload(l, ks, protected).lru.slot.Keys
    decreases |ks|
  {
    hide Lru.Valid, AtTheBack, Spared, Add, AddedRight;
    if ks != [] {
      ReloadOne(l, need, ks, protected);
      ReloadUnfold(l, ks, protected);
      var m := Add(l, ks[0], protected).value.lru;
      assert Elems(ks) == {ks[0]} + Elems(ks[1..]);
      ReloadSpares(m, need, ks[1..], protected);
    }
  }

  lemma NothingMissing(l: Lru, need: set<Key>, protected: set<Key>)
    ensures Spared(l, need, [], protected)
  {
    assert Misses(l.slot.Keys, []) == [];
  }

  /** Without `Spared`, some needed block is evicted. */
  lemma {:induction false} ReloadEvictsNeeded(l: Lru, need: set<Key>, ks: seq<Key>, protected: set<Key>)
    requires l.Valid() && AtTheBack(l.order, need) && l.capacity > 0
    requires Elems(ks) <= need && |need| <= l.capacity
    requires !Spared(l, need, ks, protected)
    ensures !(Elems(Reload(l, ks, protected).victims) !! need)
    decreases |ks|
  {
    hide Lru.Valid, AtTheBack, Add, AddedRight, Spared, Reload;
    if ks == [] {
      NothingMissing(l, need, protected);
    } else {
      ReloadOne(l, need, ks, protected);
      ReloadUnfold(l, ks, protected);
      var Added(m, s, e) := Add(l, ks[0], protected).value;
      assert Elems(ks) == {ks[0]} + Elems(ks[1..]);
      if e.None? || e.value !in need {
        ReloadEvictsNeeded(m, need, ks[1..], protected);
      }
    }
  }

  // ------------------------------------------------------------ the promise

  /**
   The documented guarantee of the two passes, settled exactly: no block the step needs is evicted
   while the step's misses are reloaded if and only if `Spared` held when the step began.
   */
  lemma NeededNeverEvictedIff(l: Lru, ids: seq<Key>, keep: seq<Key>, protected: set<Key>)
    requires l.Valid() && l.capacity > 0
    requires |Need(l, ids, keep)| <= l.capacity
    ensures Elems(EnsurePass(l, ids, keep, protected).victims) !! Need(l, ids, keep)
            <==> Spared(l, Need(l, ids, keep), ids, protected)
    ensures Spared(l, Need(l, ids, keep), ids, protected) ==>
              Need(l, ids, keep) <= EnsurePass(l, ids, keep, protected).lru.slot.Keys
  {
    var need := Need(l, ids, keep);
    var m := TouchedFirst(l, ids, keep);
    assert Spared(m, need, ids, protected) == Spared(l, need, ids, protected);
    if Spared(l, need, ids, protected) {
      ReloadSpares(m, need, ids, protected);
    } else {
      ReloadEvictsNeeded(m, need, ids, protected);
    }
  }

  lemma TouchedFirst(l: Lru, ids: seq<Key>, keep: seq<Key>) returns (m: Lru)
    requires l.Valid()
    ensures m == TouchAll(TouchAll(l, keep), ids)
    ensures m.Valid() && m.slot == l.slot && m.free == l.free && m.capacity == l.capacity
    ensures AtTheBack(m.order, Need(l, ids, keep))
  {
    m := TouchAll(TouchAll(l, keep), ids);
    TouchAllValid(l, keep);
    TouchAllValid(TouchAll(l, keep), ids);
    TouchAllAtTheBack(l, keep, {});
    var kept := Elems(keep) * l.slot.Keys;
    assert {} + kept == kept;
    TouchAllAtTheBack(TouchAll(l, keep), ids, kept);
    assert forall x :: x in m.order ==> x in Elems(m.order);
    assert forall x :: x in m.order ==> (x in Need(l, ids, keep) <==> x in kept + Elems(ids) * l.slot.Keys);
  }

  /** Plain LRU (nothing protected) always keeps the promise: a fitting working set becomes and stays resident. */
  lemma PlainLruKeepsWorkingSet(l: Lru, ids: seq<Key>, keep: seq<Key>)
    requires l.Valid() && l.capacity > 0
    requires |Need(l, ids, keep)| <= l.capacity
    ensures Elems(EnsurePass(l, ids, keep, {}).victims) !! Need(l, ids, keep)
    ensures Need(l, ids, keep) <= EnsurePass(l, ids, keep, {}).lru.slot.Keys
  {
    ElemsSize(l.order);
    FittingIsSpared(l.slot.Keys, |l.free|, Need(l, ids, keep), ids);
    NeededNeverEvictedIff(l, ids, keep, {});
  }

  lemma Halves(a: set<Key>, b: set<Key>)
    ensures |a| == |a * b| + |a - b|
  {
    assert a == a * b + (a - b);
  }

  lemma FittingIsSpared(held: set<Key>, free: nat, need: set<Key>, ids: seq<Key>)
    requires Elems(ids) <= need <= held + Elems(ids)
    requires |need| <= free + |held|
    ensures SparedIn(held, free, need, Misses(held, ids), {})
  {
    var misses := Misses(held, ids);
    ElemsSize(misses);
    Halves(need, held);
    Halves(held, need);
    assert need - held == Elems(misses);
    assert held - need == Spare(held, need, {});
    assert need * held == held * need;
  }

  /**
   The "mixture" ordering breaks the promise: with the arena full of the previous layer's protected
   selection and the live block, reloading one miss evicts the live block the step is about to read.
   Here blocks 0 and 1 are the protected selection, 9 is the live block and 5 is the miss.
   */
  lemma MixtureEvictsLiveBlock()
    ensures var l := FullArena();
            && l.Valid()
            && |Need(l, [Key(0, 5)], [Key(0, 9)])| <= l.capacity
            && Key(0, 9) in EnsurePass(l, [Key(0, 5)], [Key(0, 9)], {Key(0, 0), Key(0, 1)}).victims
            && !Spared(l, Need(l, [Key(0, 5)], [Key(0, 9)]), [Key(0, 5)], {Key(0, 0), Key(0, 1)})
  {
    hide Reload, TouchAll, Spared, Lru.Valid;
    var l, live, miss, protected := FullArena(), Key(0, 9), Key(0, 5), {Key(0, 0), Key(0, 1)};
    FullArenaValid();
    NothingSpare();
    assert Need(l, [miss], [live]) == {miss, live};
    NeededNeverEvictedIff(l, [miss], [live], protected);
    var v :| v in Elems(EnsurePass(l, [miss], [live], protected).victims) && v in {miss, live};
    VictimsWereHeld(l, [miss], [live], protected);
  }

  lemma NothingSpare()
    ensures !Spared(FullArena(), Need(FullArena(), [Key(0, 5)], [Key(0, 9)]), [Key(0, 5)], {Key(0, 0), Key(0, 1)})
  {
    hide Misses;
    var l, live, miss, protected := FullArena(), Key(0, 9), Key(0, 5), {Key(0, 0), Key(0, 1)};
    var held, need := {Key(0, 0), Key(0, 1), live}, {miss, live};
    assert l.slot.Keys == held && Need(l, [miss], [live]) == need;
    OneMiss(held, miss);
    assert Spare(held, need, protected) == {};
    assert live in held * need && live !in protected;
  }

  lemma OneMiss(held: set<Key>, miss: Key)
    requires miss !in held
    ensures Misses(held, [miss]) == [miss]
  {
  }

  function FullArena(): Lru {
    Lru(3, [Key(0, 0), Key(0, 1), Key(0, 9)], map[Key(0, 0) := 0, Key(0, 1) := 1, Key(0, 9) := 2], [])
  }

  lemma FullArenaValid()
    ensures FullArena().Valid()
  {
    var l := FullArena();
    assert l.slot.Keys == {Key(0, 0), Key(0, 1), Key(0, 9)} == Elems(l.order);
    assert forall k :: k in l.slot ==> k == l.order[l.slot[k]];
  }

  /** A pass only evicts what was held, or what it asked for itself. */
  lemma {:induction false} VictimsHeldOrAsked(l: Lru, ks: seq<Key>, protected: set<Key>)
    requires l.Valid()
    ensures Elems(Reload(l, ks, protected).victims) <= l.slot.Keys + Elems(ks)
    decreases |ks|
  {
    hide Lru.Valid, Add;
    if ks != [] {
      AddValid(l, ks[0], protected);
      if Add(l, ks[0], protected).Some? {
        ReloadUnfold(l, ks, protected);
        VictimsHeldOrAsked(Add(l, ks[0], protected).value.lru, ks[1..], protected);
        assert Elems(ks) == {ks[0]} + Elems(ks[1..]);
      }
    }
  }

  /** A single reload can only evict something held when the step began. */
  lemma VictimsWereHeld(l: Lru, ids: seq<Key>, keep: seq<Key>, protected: set<Key>)
    requires l.Valid() && |ids| == 1
    ensures Elems(EnsurePass(l, ids, keep, protected).victims) <= l.slot.Keys
  {
    var m := TouchedFirst(l, ids, keep);
    AddValid(m, ids[0], protected);
    if Add(m, ids[0], protected).Some? {
      ReloadUnfold(m, ids, protected);
    }
  }
}
