/**
 The bounded arena's slot map: an LRU dictionary from (sequence, logical block) to arena slot.
 `order` is the dictionary's key order, least recently used first; `free` is a stack.
 */
module SlotMap {
  import opened Lists

  datatype Key = Key(seqId: nat, block: nat)

  datatype Lru = Lru(capacity: nat, order: seq<Key>, slot: map<Key, nat>, free: seq<nat>) {

    /** Keys and slots correspond one to one, and every slot is either held or free, never both. */
    ghost predicate Valid() {
      && NoDup(order)
      && slot.Keys == Elems(order)
      && NoDup(free)
      && |order| + |free| == capacity
      && (forall k :: k in slot ==> slot[k] < capacity && slot[k] !in free)
      && (forall k, l :: k in slot && l in slot && slot[k] == slot[l] ==> k == l)
      && (forall f :: f in free ==> f < capacity)
    }

    predicate Holds(k: Key) {
      k in slot
    }
  }

  /** The key at the front of the eviction order among those not protected, else the very front. */
  function Victim(order: seq<Key>, protected: set<Key>): (v: Key)
    requires order != []
    ensures v in order
    ensures (exists k :: k in order && k !in protected) ==> v !in protected
    ensures (forall k :: k in order ==> k in protected) ==> v == order[0]
  {
    match FirstOutside(order, protected)
    case Some(k) => k
    case None => order[0]
  }

  function FirstOutside(order: seq<Key>, protected: set<Key>): (r: Option<Key>)
    ensures r.Some? ==> r.value in order && r.value !in protected
    ensures r.None? ==> forall k :: k in order ==> k in protected
  {
    if order == [] then None
    else if order[0] !in protected then Some(order[0])
    else FirstOutside(order[1..], protected)
  }

  /** Marks `k` most recently used. */
  function Touch(l: Lru, k: Key): Lru {
    l.(order := Without(l.order, k) + [k])
  }

  /** Marks `k` least recently used, as an untrusted prefetch does. */
  function Demote(l: Lru, k: Key): Lru {
    l.(order := [k] + Without(l.order, k))
  }

  function Free(l: Lru, k: Key): Lru
    requires k in l.slot
  {
    l.(order := Without(l.order, k), slot := l.slot - {k}, free := l.free + [l.slot[k]])
  }

  datatype Added = Added(lru: Lru, slot: nat, evicted: Option<Key>)

  /** `None` is the exception raised when there is neither a free slot nor anything to evict. */
  function Add(l: Lru, k: Key, protected: set<Key>): (r: Option<Added>)
    requires l.Valid()
  {
    if k in l.slot then Some(Added(Touch(l, k), l.slot[k], None))
    else if l.free != [] then
      var s := l.free[|l.free| - 1];
      Some(Added(l.(order := l.order + [k], slot := l.slot[k := s], free := l.free[..|l.free| - 1]), s, None))
    else if l.order == [] then None
    else
      var v := Victim(l.order, protected);
      assert v in Elems(l.order);
      var s := l.slot[v];
      Some(Added(l.(order := Without(l.order, v) + [k], slot := (l.slot - {v})[k := s]), s, Some(v)))
  }

  // ------------------------------------------------------------------ one step

  lemma TouchValid(l: Lru, k: Key)
    requires l.Valid() && k in l.slot
    ensures Touch(l, k).Valid() && Demote(l, k).Valid()
  {
    WithoutNoDup(l.order, k);
    assert k in Elems(l.order);
  }

  lemma FreeValid(l: Lru, k: Key)
    requires l.Valid() && k in l.slot
    ensures Free(l, k).Valid()
  {
    WithoutNoDup(l.order, k);
    assert k in Elems(l.order);
  }

  lemma AddFresh(l: Lru, k: Key)
    requires l.Valid() && k !in l.slot && l.free != []
    ensures var s := l.free[|l.free| - 1];
            s in l.free && l.(order := l.order + [k], slot := l.slot[k := s], free := l.free[..|l.free| - 1]).Valid()
  {
    var s := l.free[|l.free| - 1];
    var rest := l.free[..|l.free| - 1];
    assert l.free == rest + [s];
    NoDupSnoc(rest, s);
    assert k !in Elems(l.order);
    NoDupSnoc(l.order, k);
    ElemsAppend(l.order, [k]);
    assert forall f :: f in rest ==> f in l.free;
  }

  lemma AddEvicting(l: Lru, k: Key, v: Key)
    requires l.Valid() && k !in l.slot && v in l.slot
    ensures l.(order := Without(l.order, v) + [k], slot := (l.slot - {v})[k := l.slot[v]]).Valid()
  {
    hide NoDup;
    assert v in Elems(l.order) && k !in Elems(l.order);
    Replaced(l.order, k, v);
    assert (l.slot - {v})[k := l.slot[v]].Keys == l.slot.Keys - {v} + {k};
  }

  lemma Replaced(order: seq<Key>, k: Key, v: Key)
    requires NoDup(order) && v in order && k !in order
    ensures var after := Without(order, v) + [k];
            NoDup(after) && |after| == |order| && Elems(after) == Elems(order) - {v} + {k}
  {
    WithoutNoDup(order, v);
    NoDupSnoc(Without(order, v), k);
    ElemsAppend(Without(order, v), [k]);
    assert Elems(Without(order, v)) == Elems(order) - {v};
  }

  /** What an addition did: which slot, which victim, and that nothing else moved. */
  ghost predicate AddedRight(l: Lru, k: Key, a: Added) {
    var Added(m, s, e) := a;
    && m.Valid() && m.capacity == l.capacity && s < l.capacity
    && m.slot == (if e.Some? then l.slot - {e.value} else l.slot)[k := s]
    && (k in l.slot ==> s == l.slot[k] && m.free == l.free && e.None?)
    && (k !in l.slot && l.free != [] ==> e.None? && l.free == m.free + [s])
    && (k !in l.slot && l.free == [] ==> e.Some? && e.value in l.slot && l.slot[e.value] == s && m.free == [])
  }

  /** Adding keeps the one-to-one correspondence, gives `k` a slot nobody else holds, and disturbs only the victim. */
  lemma AddValid(l: Lru, k: Key, protected: set<Key>)
    requires l.Valid()
    ensures Add(l, k, protected).None? <==> l.capacity == 0
    ensures Add(l, k, protected).Some? ==> AddedRight(l, k, Add(l, k, protected).value)
  {
    if k in l.slot {
      assert k in Elems(l.order);
      TouchValid(l, k);
    } else if l.free != [] {
      AddFresh(l, k);
    } else if l.order != [] {
      assert Victim(l.order, protected) in Elems(l.order);
      AddEvicting(l, k, Victim(l.order, protected));
    }
  }

  /** The slot map before and after an addition, key by key. */
  ghost predicate Moved(before: map<Key, nat>, after: map<Key, nat>, key: Key, slot: nat, evicted: Option<Key>) {
    && key in after && after[key] == slot
    && (forall x :: x in after && x != key ==> x in before && after[x] == before[x])
    && (forall x :: x in before && x !in after ==> evicted == Some(x))
    && (evicted.Some? ==> evicted.value in before && evicted.value != key && evicted.value !in after
                          && before[evicted.value] == slot)
  }

  lemma AddMoved(l: Lru, key: Key, a: Added)
    requires l.Valid() && AddedRight(l, key, a)
    ensures Moved(l.slot, a.lru.slot, key, a.slot, a.evicted) && a.slot < l.capacity
  {
  }
}
