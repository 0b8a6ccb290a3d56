/**
 The slot map is a least-recently-used cache. Over every history of calls the eviction order is the order of last use,
 a demotion counting as older than anything before it, so that the victim of an addition is always the unprotected key
 that was used longest ago.
 */
module Recency {
  import opened Lists
  import opened SlotMap

  datatype Call = Using(key: Key, protected: set<Key>) | Demoting(key: Key) | Freeing(key: Key)

  /** The table after one call; demoting or freeing a key that is not held does nothing. */
  ghost function After(l: Lru, c: Call): (m: Lru)
    requires l.Valid() && l.capacity > 0
    ensures m.Valid() && m.capacity == l.capacity
  {
    match c
    case Using(k, protected) => AddValid(l, k, protected); Add(l, k, protected).value.lru
    case Demoting(k) => if k in l.slot then TouchValid(l, k); Demote(l, k) else l
    case Freeing(k) => if k in l.slot then FreeValid(l, k); Free(l, k) else l
  }

  /** The table after the first `n` calls. */
  ghost function Table(start: Lru, calls: seq<Call>, n: nat): (m: Lru)
    requires start.Valid() && start.capacity > 0 && n <= |calls|
    ensures m.Valid() && m.capacity == start.capacity
  {
    if n == 0 then start else After(Table(start, calls, n - 1), calls[n - 1])
  }

  /** When `k` was last used: call number `n` counts as time `n`, and as time `-n` if it was a demotion. */
  ghost function LastUse(calls: seq<Call>, n: nat, k: Key): (time: int)
    requires n <= |calls|
    ensures 0 - n <= time <= n
  {
    if n == 0 then 0
    else if calls[n - 1] == Demoting(k) then 0 - n
    else if calls[n - 1].Using? && calls[n - 1].key == k then n
    else LastUse(calls, n - 1, k)
  }

  ghost predicate ByLastUse(order: seq<Key>, calls: seq<Call>, n: nat)
    requires n <= |calls|
  {
    forall i, j :: 0 <= i < j < |order| ==> LastUse(calls, n, order[i]) < LastUse(calls, n, order[j])
  }

  /** Dropping a key keeps the order of the others. */
  lemma {:induction false} WithoutByLastUse(order: seq<Key>, k: Key, calls: seq<Call>, n: nat)
    requires n <= |calls| && ByLastUse(order, calls, n)
    ensures ByLastUse(Without(order, k), calls, n)
  {
    if order != [] {
      WithoutByLastUse(order[1..], k, calls, n);
      var rest := Without(order[1..], k);
      forall j | 0 <= j < |rest| ensures LastUse(calls, n, order[0]) < LastUse(calls, n, rest[j]) {
        assert rest[j] in rest;
        var i :| 0 <= i < |order[1..]| && order[1..][i] == rest[j];
        assert order[i + 1] == rest[j];
      }
    }
  }

  /** A later call about another key changes nothing for these. */
  lemma LaterCall(order: seq<Key>, calls: seq<Call>, n: nat)
    requires n < |calls| && ByLastUse(order, calls, n)
    requires calls[n].key !in order || calls[n].Freeing?
    ensures ByLastUse(order, calls, n + 1)
  {
    forall i | 0 <= i < |order| ensures LastUse(calls, n + 1, order[i]) == LastUse(calls, n, order[i]) {
      assert order[i] in order;
    }
  }

  /** At every moment the eviction order is the order of last use. */
  lemma {:induction false} OrderIsRecency(start: Lru, calls: seq<Call>, n: nat)
    requires start.Valid() && start.capacity > 0 && start.order == [] && n <= |calls|
    ensures ByLastUse(Table(start, calls, n).order, calls, n)
  {
    hide Lru.Valid, After, ByLastUse;
    if n == 0 {
      NothingUsed(calls);
    } else {
      OrderIsRecency(start, calls, n - 1);
      CallKeepsOrder(Table(start, calls, n - 1), calls, n - 1);
    }
  }

  lemma NothingUsed(calls: seq<Call>)
    ensures ByLastUse([], calls, 0)
  {
  }

  lemma CallKeepsOrder(l: Lru, calls: seq<Call>, n: nat)
    requires l.Valid() && l.capacity > 0 && n < |calls| && ByLastUse(l.order, calls, n)
    ensures ByLastUse(After(l, calls[n]).order, calls, n + 1)
  {
    hide Lru.Valid, ByLastUse;
    var k := calls[n].key;
    match calls[n]
    case Using(_, protected) => UseKeepsOrder(l, calls, n);
    case Demoting(_) =>
      if k in l.slot {
        WithoutByLastUse(l.order, k, calls, n);
        LaterCall(Without(l.order, k), calls, n);
        OldestFirst(Without(l.order, k), calls, n);
      } else {
        NotListed(l, k);
        LaterCall(l.order, calls, n);
      }
    case Freeing(_) =>
      WithoutByLastUse(l.order, k, calls, n);
      LaterCall(Without(l.order, k), calls, n);
      LaterCall(l.order, calls, n);
  }

  lemma NotListed(l: Lru, k: Key)
    requires l.Valid()
    ensures k in l.slot <==> k in l.order
  {
    assert k in l.slot.Keys <==> k in Elems(l.order);
  }

  lemma UseKeepsOrder(l: Lru, calls: seq<Call>, n: nat)
    requires l.Valid() && l.capacity > 0 && n < |calls| && ByLastUse(l.order, calls, n) && calls[n].Using?
    ensures ByLastUse(After(l, calls[n]).order, calls, n + 1)
  {
    hide Lru.Valid, ByLastUse;
    var k, protected := calls[n].key, calls[n].protected;
    NotListed(l, k);
    AddValid(l, k, protected);
    if k in l.slot || l.free == [] {
      var gone := if k in l.slot then k else Add(l, k, protected).value.evicted.value;
      WithoutByLastUse(l.order, gone, calls, n);
      LaterCall(Without(l.order, gone), calls, n);
      NewestLast(Without(l.order, gone), calls, n);
    } else {
      LaterCall(l.order, calls, n);
      NewestLast(l.order, calls, n);
    }
  }

  lemma OldestFirst(order: seq<Key>, calls: seq<Call>, n: nat)
    requires n < |calls| && calls[n].Demoting? && calls[n].key !in order && ByLastUse(order, calls, n + 1)
    ensures ByLastUse([calls[n].key] + order, calls, n + 1)
  {
    forall j | 0 <= j < |order| ensures 0 - n <= LastUse(calls, n + 1, order[j]) { assert order[j] in order; }
  }

  lemma NewestLast(order: seq<Key>, calls: seq<Call>, n: nat)
    requires n < |calls| && calls[n].Using? && calls[n].key !in order && ByLastUse(order, calls, n + 1)
    ensures ByLastUse(order + [calls[n].key], calls, n + 1)
  {
    forall j | 0 <= j < |order| ensures LastUse(calls, n + 1, order[j]) <= n { assert order[j] in order; }
  }

  /**
   An addition to a full table evicts, of the keys that are not protected, the one used longest ago, and of all keys if
   every one of them is protected.
   */
  lemma VictimIsLeastRecent(start: Lru, calls: seq<Call>, n: nat, k: Key, protected: set<Key>, x: Key)
    requires start.Valid() && start.capacity > 0 && start.order == [] && n <= |calls|
    requires var l := Table(start, calls, n); k !in l.slot && l.free == [] && x in l.slot
    ensures var l := Table(start, calls, n);
            var v := Add(l, k, protected).value.evicted.value;
            && v in l.slot
            && (x !in protected ==> v !in protected && LastUse(calls, n, v) <= LastUse(calls, n, x))
            && (v in protected ==> LastUse(calls, n, v) <= LastUse(calls, n, x))
  {
    hide Lru.Valid, Table, LastUse;
    var l := Table(start, calls, n);
    OrderIsRecency(start, calls, n);
    NotListed(l, x);
    AddValid(l, k, protected);
    var v := Victim(l.order, protected);
    NotListed(l, v);
    if x !in protected { FirstComes(l.order, protected, x); }
    assert At(l.order, v) == 0 || FirstOutside(l.order, protected).Some?;
    assert At(l.order, v) < At(l.order, x) ==> LastUse(calls, n, v) < LastUse(calls, n, x);
    assert At(l.order, v) == At(l.order, x) ==> v == x;
  }

  function At(order: seq<Key>, k: Key): (i: nat)
    requires k in order
    ensures i < |order| && order[i] == k
  {
    if order[0] == k then 0 else 1 + At(order[1..], k)
  }

  /** The victim stands before every key it is chosen over. */
  lemma {:induction false} FirstComes(order: seq<Key>, protected: set<Key>, x: Key)
    requires x in order && x !in protected
    ensures var v := FirstOutside(order, protected); v.Some? && At(order, v.value) <= At(order, x)
  {
    if order[0] in protected { FirstComes(order[1..], protected, x); }
  }
}
