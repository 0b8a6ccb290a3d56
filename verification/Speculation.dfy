/**
 Speculative reloads at the level of the slot map: exactly which guess evicts which block. An untrusted guess is left
 first in line for eviction, whether it was missing or already held, so the next guess that misses takes it out.
 */
module Speculation {
  import opened Lists
  import opened SlotMap
  import opened WorkingSet

  /** Not the next to go: there is a free slot, or another key is first in line. */
  predicate NotNext(l: Lru, key: Key) {
    l.free == [] ==> l.order != [] && l.order[0] != key
  }

  /** One untrusted guess: it ends up first in line, and only what was first in line can have left. */
  lemma GuessOne(l: Lru, k: Key)
    requires l.Valid() && l.capacity > 0
    ensures Add(l, k, {}).Some?
    ensures var Added(m, _, e) := Add(l, k, {}).value;
            && AddedRight(l, k, Add(l, k, {}).value) && k in m.slot && Demote(m, k).Valid()
            && Demote(m, k).order[0] == k
            && (e.Some? <==> k !in l.slot && l.free == [])
            && (e.Some? ==> l.order != [] && e.value == l.order[0])
  {
    AddValid(l, k, {});
    TouchValid(Add(l, k, {}).value.lru, k);
  }

  /** The slot map before guess `i` of a pass. */
  function Before(l: Lru, ks: seq<Key>, protected: set<Key>, trusted: bool, i: nat): Lru
    requires l.Valid() && i <= |ks|
  {
    Speculate(l, ks[..i], protected, trusted).lru
  }

  /** Guess `i` finds no free slot and evicts `key`. */
  predicate TakenAt(l: Lru, ks: seq<Key>, protected: set<Key>, trusted: bool, key: Key, i: nat)
    requires l.Valid()
  {
    && i < |ks|
    && var m := Before(l, ks, protected, trusted, i);
       ks[i] !in m.slot && m.free == [] && m.order != [] && Victim(m.order, protected) == key
  }

  ghost predicate Takes(l: Lru, ks: seq<Key>, protected: set<Key>, trusted: bool, key: Key)
    requires l.Valid()
  {
    exists i: nat :: TakenAt(l, ks, protected, trusted, key, i)
  }

  /** One guess further, the rest of the pass looks the same. */
  lemma TakenLater(l: Lru, ks: seq<Key>, protected: set<Key>, trusted: bool, key: Key, i: nat)
    requires l.Valid() && l.capacity > 0 && ks != []
    ensures Add(l, ks[0], protected).Some? && AddedRight(l, ks[0], Add(l, ks[0], protected).value)
    ensures var a := Add(l, ks[0], protected).value.lru;
            && ks[0] in a.slot && Demote(a, ks[0]).Valid()
            && TakenAt(l, ks, protected, trusted, key, i + 1)
               == TakenAt(if trusted then a else Demote(a, ks[0]), ks[1..], protected, trusted, key, i)
  {
    hide Lru.Valid, Add;
    AddValid(l, ks[0], protected);
    TouchValid(Add(l, ks[0], protected).value.lru, ks[0]);
    if i + 1 < |ks| {
      assert ks[..i + 1][0] == ks[0] && ks[..i + 1][1..] == ks[1..][..i];
    }
  }

  lemma TakenFirst(l: Lru, ks: seq<Key>, protected: set<Key>, trusted: bool, key: Key)
    requires l.Valid() && l.capacity > 0 && ks != [] && Add(l, ks[0], protected).Some?
    ensures TakenAt(l, ks, protected, trusted, key, 0) <==> Add(l, ks[0], protected).value.evicted == Some(key)
  {
    assert ks[..0] == [];
  }

  /** The victims of a pass are the keys its guesses take. */
  lemma {:induction false} VictimsIff(l: Lru, ks: seq<Key>, protected: set<Key>, trusted: bool, key: Key)
    requires l.Valid() && l.capacity > 0
    ensures key in Speculate(l, ks, protected, trusted).victims <==> Takes(l, ks, protected, trusted, key)
    decreases |ks|
  {
    hide Lru.Valid, Add, TakenAt;
    if ks == [] {
      NothingTaken(l, protected, trusted, key);
    } else {
      TakenLater(l, ks, protected, trusted, key, 0);
      TakenFirst(l, ks, protected, trusted, key);
      var a := Add(l, ks[0], protected).value.lru;
      var m, rest := if trusted then a else Demote(a, ks[0]), ks[1..];
      VictimsIff(m, rest, protected, trusted, key);
      if i: nat :| TakenAt(l, ks, protected, trusted, key, i) {
        if i > 0 { TakenLater(l, ks, protected, trusted, key, i - 1); }
      }
      if i: nat :| TakenAt(m, rest, protected, trusted, key, i) {
        TakenLater(l, ks, protected, trusted, key, i);
      }
    }
  }

  lemma NothingTaken(l: Lru, protected: set<Key>, trusted: bool, key: Key)
    requires l.Valid()
    ensures !Takes(l, [], protected, trusted, key)
  {
  }

  /** What no guess takes stays. */
  lemma {:induction false} UntakenStays(l: Lru, ks: seq<Key>, protected: set<Key>, trusted: bool, key: Key)
    requires l.Valid() && l.capacity > 0 && key in l.slot && key !in Speculate(l, ks, protected, trusted).victims
    ensures Speculate(l, ks, protected, trusted).lru.Valid() && key in Speculate(l, ks, protected, trusted).lru.slot
    decreases |ks|
  {
    hide Lru.Valid, Add;
    if ks != [] {
      AddValid(l, ks[0], protected);
      var m := Add(l, ks[0], protected).value.lru;
      TouchValid(m, ks[0]);
      UntakenStays(if trusted then m else Demote(m, ks[0]), ks[1..], protected, trusted, key);
    }
  }

  /** An untrusted guess, hit or miss, is first in line for the next one. */
  lemma {:induction false} FirstIsGuess(l: Lru, ks: seq<Key>)
    requires l.Valid() && l.capacity > 0 && ks != []
    ensures var r := Speculate(l, ks, {}, false).lru; r.order != [] && r.order[0] == ks[|ks| - 1]
    decreases |ks|
  {
    hide Lru.Valid, Add;
    GuessOne(l, ks[0]);
    var m := Demote(Add(l, ks[0], {}).value.lru, ks[0]);
    if |ks| > 1 {
      assert ks[1..][|ks| - 2] == ks[|ks| - 1];
      FirstIsGuess(m, ks[1..]);
    } else {
      assert ks[1..] == [];
    }
  }

  /**
   Exactly when untrusted guesses evict a key: some guess misses with no slot free while the key is first in line, which
   is what was first in line to begin with for the first guess and the previous guess for every other.
   */
  lemma GuessesEvictIff(l: Lru, ks: seq<Key>, key: Key)
    requires l.Valid() && l.capacity > 0
    ensures key in Speculate(l, ks, {}, false).victims <==> exists i: nat :: EvictsNext(l, ks, key, i)
  {
    hide Lru.Valid, Before;
    VictimsIff(l, ks, {}, false, key);
    forall i: nat ensures EvictsNext(l, ks, key, i) <==> TakenAt(l, ks, {}, false, key, i) {
      if i < |ks| { NextInLine(l, ks, i); }
    }
    if i: nat :| TakenAt(l, ks, {}, false, key, i) { assert EvictsNext(l, ks, key, i); }
    if i: nat :| EvictsNext(l, ks, key, i) { assert TakenAt(l, ks, {}, false, key, i); }
  }

  predicate EvictsNext(l: Lru, ks: seq<Key>, key: Key, i: nat)
    requires l.Valid()
  {
    && i < |ks|
    && var m := Before(l, ks, {}, false, i);
       && ks[i] !in m.slot && m.free == []
       && if i == 0 then l.order != [] && l.order[0] == key else ks[i - 1] == key
  }

  lemma NextInLine(l: Lru, ks: seq<Key>, i: nat)
    requires l.Valid() && l.capacity > 0 && i < |ks|
    ensures i == 0 ==> Before(l, ks, {}, false, i) == l
    ensures i > 0 ==> var m := Before(l, ks, {}, false, i); m.order != [] && m.order[0] == ks[i - 1]
    ensures forall order: seq<Key> :: order != [] ==> Victim(order, {}) == order[0]
  {
    if i == 0 { assert ks[..i] == []; } else { FirstIsGuess(l, ks[..i]); }
  }

  /** A key that is not first in line, and not guessed before the last guess, survives. */
  lemma {:induction false} GuessesSpare(l: Lru, ks: seq<Key>, key: Key)
    requires l.Valid() && l.capacity > 0 && key in l.slot && NotNext(l, key)
    requires ks != [] ==> key !in ks[..|ks| - 1]
    ensures key !in Speculate(l, ks, {}, false).victims
    ensures ks == [] || ks[|ks| - 1] != key ==> NotNext(Speculate(l, ks, {}, false).lru, key)
  {
    hide Lru.Valid, Speculate, Before;
    GuessesEvictIff(l, ks, key);
    forall i: nat ensures !EvictsNext(l, ks, key, i) {
      if 0 < i < |ks| { assert ks[i - 1] in ks[..|ks| - 1]; } else if i < |ks| { NextInLine(l, ks, 0); }
    }
    if ks == [] { NothingGuessed(l); } else { FirstIsGuess(l, ks); }
  }

  lemma NothingGuessed(l: Lru)
    requires l.Valid()
    ensures Speculate(l, [], {}, false).lru == l
  {
  }

  /** Every victim was held before or is itself one of the guesses. */
  lemma {:induction false} GuessVictims(l: Lru, ks: seq<Key>, protected: set<Key>, trusted: bool)
    requires l.Valid()
    ensures forall v :: v in Speculate(l, ks, protected, trusted).victims ==> v in l.slot || v in ks
    decreases |ks|
  {
    hide Lru.Valid, Add;
    if ks != [] {
      AddValid(l, ks[0], protected);
      if Add(l, ks[0], protected).Some? {
        var m := Add(l, ks[0], protected).value.lru;
        TouchValid(m, ks[0]);
        GuessVictims(if trusted then m else Demote(m, ks[0]), ks[1..], protected, trusted);
        assert forall k :: k in ks <==> k == ks[0] || k in ks[1..];
      }
    }
  }

  lemma FirstGoes(l: Lru, k: Key)
    requires l.Valid() && l.free == [] && l.order != [] && k !in l.slot
    ensures Add(l, k, {}).Some?
    ensures var Added(m, _, e) := Add(l, k, {}).value;
            && e == Some(l.order[0]) && m.free == [] && m.Valid() && l.order[0] in l.slot
            && Demote(m, k).Valid() && Demote(m, k).order == [k] + l.order[1..]
            && m.slot == (l.slot - {l.order[0]})[k := l.slot[l.order[0]]]
  {
    GuessOne(l, k);
    var first, rest := l.order[0], l.order[1..];
    assert first in Elems(l.order) && k !in Elems(l.order);
    assert l.order == [first] + rest;
    NoDupCons(first, rest);
    assert first !in rest && k !in rest;
    assert Without(l.order, first) == rest;
    WithoutSnoc(rest, k);
  }

  lemma {:induction false} WithoutSnoc(s: seq<Key>, k: Key)
    requires k !in s
    ensures Without(s + [k], k) == s
  {
    if s != [] {
      assert s[0] in s && (s + [k])[1..] == s[1..] + [k];
      WithoutSnoc(s[1..], k);
    }
  }

  lemma AgainSame(l: Lru, k: Key)
    requires l.Valid() && l.order != [] && l.order[0] == k
    ensures k in l.slot && Add(l, k, {}) == Some(Added(Touch(l, k), l.slot[k], None)) && Demote(Touch(l, k), k) == l
    ensures Touch(l, k).Valid()
  {
    var rest := l.order[1..];
    assert k in Elems(l.order) && l.order == [k] + rest;
    TouchValid(l, k);
    NoDupCons(k, rest);
    assert Without(l.order, k) == rest;
    WithoutSnoc(rest, k);
  }

  /**
   Guesses replace one another: in a full arena, whatever list of missing blocks is guessed, only the last one survives
   in the slot of the block that was first in line, and the rest of the arena is as it was.
   */
  lemma {:induction false} OnlyLastGuessSurvives(l: Lru, ks: seq<Key>)
    requires l.Valid() && l.free == [] && l.order != [] && ks != [] && forall k :: k in ks ==>
             k !in l.slot || k == l.order[0]
    ensures var last, r := ks[|ks| - 1], Speculate(l, ks, {}, false).lru;
            && l.order[0] in l.slot && r.free == [] && r.order == [last] + l.order[1..]
            && r.slot == (l.slot - {l.order[0]})[last := l.slot[l.order[0]]]
    decreases |ks|
  {
    hide Lru.Valid, Add;
    assert ks[0] in ks && forall x :: x in ks[1..] ==> x in ks;
    GuessReplaces(l, ks[0]);
    if |ks| > 1 {
      var m, last := Demote(Add(l, ks[0], {}).value.lru, ks[0]), ks[|ks| - 1];
      assert ks[1..][|ks| - 2] == last;
      OnlyLastGuessSurvives(m, ks[1..]);
      SlotPassedOn(l.slot, m.slot, l.order[0], ks[0], last);
    }
  }

  /** A guess takes the place and the slot of what was first in line, be that itself. */
  lemma GuessReplaces(l: Lru, k: Key)
    requires l.Valid() && l.free == [] && l.order != [] && (k !in l.slot || k == l.order[0])
    ensures Add(l, k, {}).Some? && Add(l, k, {}).value.lru.Valid() && k in Add(l, k, {}).value.lru.slot
    ensures var m := Demote(Add(l, k, {}).value.lru, k);
            && l.order[0] in l.slot && m.Valid() && m.free == [] && m.order == [k] + l.order[1..]
            && m.slot == (l.slot - {l.order[0]})[k := l.slot[l.order[0]]]
  {
    hide Add, Lru.Valid;
    if k == l.order[0] {
      AgainSame(l, k);
      assert l.slot == (l.slot - {k})[k := l.slot[k]];
    } else {
      FirstGoes(l, k);
    }
  }

  lemma SlotPassedOn(a: map<Key, nat>, b: map<Key, nat>, first: Key, k: Key, last: Key)
    requires first in a && b == (a - {first})[k := a[first]] && (k !in a || k == first)
    ensures (b - {k})[last := b[k]] == (a - {first})[last := a[first]]
  {
    assert b - {k} == a - {first};
  }

  // ------------------------------------------------------------ after a request

  /** Reloading keeps what the step needs behind everything else. */
  lemma {:induction false} ReloadAtTheBack(l: Lru, need: set<Key>, ks: seq<Key>, protected: set<Key>)
    requires l.Valid() && l.capacity > 0 && AtTheBack(l.order, need) && Elems(ks) <= need
    ensures Reload(l, ks, protected).lru.Valid() && Reload(l, ks, protected).lru.capacity == l.capacity
    ensures AtTheBack(Reload(l, ks, protected).lru.order, need)
    decreases |ks|
  {
    hide Lru.Valid, Add, AtTheBack;
    if ks != [] {
      assert ks[0] in Elems(ks) && Elems(ks[1..]) <= Elems(ks);
      AddSets(l, ks[0], protected, need);
      ReloadAtTheBack(Add(l, ks[0], protected).value.lru, need, ks[1..], protected);
    }
  }

  /** After a request that leaves a slot over, no needed key is the next to go. */
  lemma SlackSpares(l: Lru, ids: seq<Key>, keep: seq<Key>, protected: set<Key>, key: Key)
    requires l.Valid() && l.capacity > 0 && |Need(l, ids, keep)| < l.capacity && key in Need(l, ids, keep)
    ensures NotNext(EnsurePass(l, ids, keep, protected).lru, key)
  {
    var need := Need(l, ids, keep);
    var m := TouchedFirst(l, ids, keep);
    ReloadAtTheBack(m, need, ids, protected);
    var r := EnsurePass(l, ids, keep, protected).lru;
    if r.free == [] {
      ElemsSize(r.order);
      if Elems(r.order) <= need { SubsetSize(Elems(r.order), need); }
      var x :| x in r.order && x !in need;
    }
  }

  /**
   A request that fills the arena exactly leaves the kept key first in line: touching it comes before touching the
   selection. The next guess that misses evicts it.
   */
  lemma ExactFitExposes(l: Lru, ids: seq<Key>, key: Key, protected: set<Key>, guess: Key)
    requires l.Valid() && l.free == [] && key !in ids && l.slot.Keys == Elems(ids) + {key} && guess !in l.slot
    ensures var r := EnsurePass(l, ids, [key], protected).lru;
            r.Valid() && r.free == [] && r.order != [] && r.order[0] == key &&
                key in Speculate(r, [guess], {}, false).victims
  {
    hide Add;
    assert key in l.slot.Keys && l.slot.Keys == Elems(l.order);
    var m := TouchedFirst(l, ids, [key]);
    TouchAllAtTheBack(TouchAll(l, [key]), ids, {});
    TouchAllValid(l, [key]);
    assert {} + Elems(ids) * l.slot.Keys == Elems(ids);
    ReloadAtTheBack(m, Elems(ids), ids, protected);
    var r := EnsurePass(l, ids, [key], protected).lru;
    HeldReload(m, ids, protected);
    assert key in Elems(r.order);
    assert r.order[0] in Elems(r.order);
    GuessesEvictIff(r, [guess], key);
    NextInLine(r, [guess], 0);
    assert EvictsNext(r, [guess], key, 0);
  }

  /**
   Naming a held key puts it first in line, whatever slack there is: guessed just before a missing block into a full
   arena, it is evicted.
   */
  lemma NamedIsTaken(l: Lru, key: Key, guess: Key)
    requires l.Valid() && l.free == [] && key in l.slot && guess !in l.slot
    ensures key in Speculate(l, [key, guess], {}, false).victims
  {
    hide Lru.Valid, Speculate, Add;
    HitOnce(l, key);
    var ks := [key, guess];
    assert ks[..1] == [key];
    GuessesEvictIff(l, ks, key);
    assert EvictsNext(l, ks, key, 1);
  }

  lemma HoldsSome(l: Lru, key: Key)
    requires l.Valid() && key in l.slot
    ensures l.capacity > 0
  {
    assert key in Elems(l.order);
  }

  lemma HitOnce(l: Lru, key: Key)
    requires l.Valid() && key in l.slot
    ensures var r := Speculate(l, [key], {}, false).lru; r.slot == l.slot && r.free == l.free
    ensures l.capacity > 0
  {
    hide Lru.Valid;
    HoldsSome(l, key);
    TouchValid(l, key);
    TouchValid(Touch(l, key), key);
    var m := Demote(Touch(l, key), key);
    assert [key][1..] == [] && Speculate(m, [], {}, false) == Pass(m, []);
  }

  /** A request for keys all held changes recency only. */
  lemma {:induction false} HeldReload(l: Lru, ks: seq<Key>, protected: set<Key>)
    requires l.Valid() && forall k :: k in ks ==> k in l.slot
    ensures var r := Reload(l, ks, protected);
            r.lru.Valid() && r.lru.slot == l.slot && r.lru.free == l.free && r.victims == []
    decreases |ks|
  {
    hide Lru.Valid;
    if ks != [] {
      assert ks[0] in ks && forall k :: k in ks[1..] ==> k in ks;
      TouchValid(l, ks[0]);
      HeldReload(Touch(l, ks[0]), ks[1..], protected);
    }
  }
}
