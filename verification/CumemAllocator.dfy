/**
 Creating, mapping and releasing chunked device memory through a driver that may fail at any call. The driver
 keeps live handles and mapped ranges, and logs every call with its status; the allocator keeps one error code
 that a failing call overwrites.
 */
module CumemAllocator {
  import opened ChunkSizes
  import opened Lists

  datatype Chunk = Chunk(size: nat, handle: nat)

  datatype Call =
    | Create(handle: nat, size: nat, status: int)
    | Map(addr: int, size: nat, handle: nat, status: int)
    | Unmap(addr: int, size: nat, status: int)
    | Release(handle: nat, status: int)

  // ------------------------------------------------------------------ what a log of calls did

  ghost function Released(t: seq<Call>): set<nat> { set c | c in t && c.Release? && c.status == 0 :: c.handle }
  ghost function Unmapped(t: seq<Call>): set<int> { set c | c in t && c.Unmap? && c.status == 0 :: c.addr }
  ghost function StuckHandles(t: seq<Call>): set<nat> { set c | c in t && c.Release? && c.status != 0 :: c.handle }
  ghost function StuckRanges(t: seq<Call>): set<int> { set c | c in t && c.Unmap? && c.status != 0 :: c.addr }

  /** The status of the first failing call, zero when none failed. */
  ghost function FirstError(t: seq<Call>): int {
    if t == [] then 0
    else if FirstError(t[..|t| - 1]) != 0 then FirstError(t[..|t| - 1])
    else t[|t| - 1].status
  }

  /** The chunks `lo..` of an allocation being unmapped in order, each at its own offset. */
  ghost predicate Unmaps(t: seq<Call>, mem: int, sizes: seq<nat>, n: nat) {
    && n <= |sizes| && |t| == n
    && forall i :: 0 <= i < n ==> t[i].Unmap? && t[i].addr == mem + Offset(sizes, i) && t[i].size == sizes[i]
  }

  ghost predicate Releases(t: seq<Call>, handles: seq<nat>, n: nat) {
    && n <= |handles| && |t| == n
    && forall i :: 0 <= i < n ==> t[i].Release? && t[i].handle == handles[i]
  }

  lemma FirstErrorSnoc(t: seq<Call>, c: Call)
    ensures FirstError(t + [c]) == if FirstError(t) != 0 then FirstError(t) else c.status
  {
    assert (t + [c])[..|t|] == t;
  }

  /** What `FirstError` means: a failing call's status with only successes before it, and zero iff all succeeded. */
  lemma {:induction false} FirstErrorMeaning(t: seq<Call>)
    ensures FirstError(t) == 0 ==> forall i :: 0 <= i < |t| ==> t[i].status == 0
    ensures FirstError(t) != 0 ==>
              exists i :: && 0 <= i < |t| && t[i].status == FirstError(t)
                          && forall j :: 0 <= j < i ==> t[j].status == 0
  {
    if t != [] {
      var init, last := t[..|t| - 1], t[|t| - 1];
      FirstErrorMeaning(init);
      if FirstError(init) != 0 {
        var i :| 0 <= i < |init| && init[i].status == FirstError(init) && forall j :: 0 <= j < i ==>
            init[j].status == 0;
        assert t[i].status == FirstError(t) && forall j :: 0 <= j < i ==> t[j].status == 0;
      } else if last.status != 0 {
        assert t[|init|].status == FirstError(t) && forall j :: 0 <= j < |init| ==> t[j] == init[j];
      }
    }
  }

  // ------------------------------------------------------------------ the driver

  /** The driver's answer to the next call; a script that has run out answers with success. */
  function Answer(script: seq<int>): int { if script == [] then 0 else script[0] }

  function Later(script: seq<int>): seq<int> { if script == [] then [] else script[1..] }

  /** `script` holds the statuses of the calls to come, so that every behaviour of a real driver is some script. */
  class Driver {
    var live: set<nat>
    var mapped: map<int, Chunk>
    var next: nat
    var script: seq<int>
    ghost var log: seq<Call>

    ghost predicate Valid()
      reads this
    {
      forall h :: h in live ==> h < next
    }

    constructor (script: seq<int>)
      ensures Valid() && live == {} && mapped == map[] && log == [] && this.script == script
    {
      live, mapped, next, log, this.script := {}, map[], 0, [], script;
    }

    /** A success yields a handle nobody holds; a failure changes nothing. */
    method MemCreate(size: nat) returns (status: int, h: nat)
      requires Valid()
      modifies this
      ensures Valid() && mapped == old(mapped) && log == old(log) + [Create(h, size, status)]
      ensures live == if status == 0 then old(live) + {h} else old(live)
      ensures status == 0 ==> h !in old(live)
      ensures status == Answer(old(script)) && script == Later(old(script))
    {
      status, h, script := Answer(script), next, Later(script);
      if status == 0 {
        live, next := live + {h}, next + 1;
      }
      log := log + [Create(h, size, status)];
    }

    /** An occupied address or a dead handle is refused; otherwise the driver answers as it likes. */
    method MemMap(addr: int, size: nat, h: nat) returns (status: int)
      requires Valid()
      modifies this
      ensures Valid() && live == old(live) && log == old(log) + [Map(addr, size, h, status)]
      ensures status == 0 ==> addr !in old(mapped) && h in live && mapped == old(mapped)[addr := Chunk(size, h)]
      ensures status != 0 ==> mapped == old(mapped)
    {
      status, script := Answer(script), Later(script);
      if status == 0 && (addr in mapped || h !in live) {
        status := 1;
      }
      if status == 0 {
        mapped := mapped[addr := Chunk(size, h)];
      }
      log := log + [Map(addr, size, h, status)];
    }

    method MemUnmap(addr: int, size: nat) returns (status: int)
      requires Valid()
      modifies this
      ensures Valid() && live == old(live) && log == old(log) + [Unmap(addr, size, status)]
      ensures status == 0 ==> addr in old(mapped) && mapped == old(mapped) - {addr}
      ensures status != 0 ==> mapped == old(mapped)
    {
      status, script := Answer(script), Later(script);
      if status == 0 && (addr !in mapped || mapped[addr].size != size) {
        status := 1;
      }
      if status == 0 {
        mapped := mapped - {addr};
      }
      log := log + [Unmap(addr, size, status)];
    }

    method MemRelease(h: nat) returns (status: int)
      requires Valid()
      modifies this
      ensures Valid() && mapped == old(mapped) && log == old(log) + [Release(h, status)]
      ensures live == if status == 0 then old(live) - {h} else old(live)
    {
      status, script := Answer(script), Later(script);
      if status == 0 && h !in live {
        status := 1;
      }
      if status == 0 {
        live := live - {h};
      }
      log := log + [Release(h, status)];
    }
  }

  // ------------------------------------------------------------------ best-effort loops

  lemma LogSnoc(t: seq<Call>, c: Call)
    ensures Released(t + [c]) == Released(t) + if c.Release? && c.status == 0 then {c.handle} else {}
    ensures Unmapped(t + [c]) == Unmapped(t) + if c.Unmap? && c.status == 0 then {c.addr} else {}
  {
    assert forall d :: d in t + [c] <==> d in t || d == c;
  }

  /** Unmaps the first `n` chunks whatever the driver answers. */
  method UnmapEach(d: Driver, mem: int, sizes: seq<nat>, n: nat) returns (first: int, ghost t: seq<Call>)
    requires d.Valid() && n <= |sizes|
    modifies d
    ensures d.Valid() && d.live == old(d.live) && d.log == old(d.log) + t
    ensures Unmaps(t, mem, sizes, n) && first == FirstError(t)
    ensures d.mapped == old(d.mapped) - Unmapped(t)
  {
    hide Unmapped, Released, FirstError;
    first, t := 0, [];
    var offset := 0;
    NothingDone();
    for i := 0 to n
      invariant d.Valid() && d.live == old(d.live) && d.log == old(d.log) + t
      invariant Unmaps(t, mem, sizes, i) && first == FirstError(t) && offset == Offset(sizes, i)
      invariant d.mapped == old(d.mapped) - Unmapped(t)
    {
      var status := d.MemUnmap(mem + offset, sizes[i]);
      if status != 0 && first == 0 {
        first := status;
      }
      offset := offset + sizes[i];
      LogSnoc(t, Unmap(mem + Offset(sizes, i), sizes[i], status));
      FirstErrorSnoc(t, Unmap(mem + Offset(sizes, i), sizes[i], status));
      t := t + [Unmap(mem + Offset(sizes, i), sizes[i], status)];
    }
  }

  lemma NothingDone()
    ensures Unmapped([]) == {} && Released([]) == {} && FirstError([]) == 0
  {
  }

  /** Releases the first `n` handles whatever the driver answers. */
  method ReleaseEach(d: Driver, handles: seq<nat>, n: nat) returns (first: int, ghost t: seq<Call>)
    requires d.Valid() && n <= |handles|
    modifies d
    ensures d.Valid() && d.mapped == old(d.mapped) && d.log == old(d.log) + t
    ensures Releases(t, handles, n) && first == FirstError(t)
    ensures d.live == old(d.live) - Released(t)
  {
    hide Unmapped, Released, FirstError;
    first, t := 0, [];
    NothingDone();
    for i := 0 to n
      invariant d.Valid() && d.mapped == old(d.mapped) && d.log == old(d.log) + t
      invariant Releases(t, handles, i) && first == FirstError(t)
      invariant d.live == old(d.live) - Released(t)
    {
      var status := d.MemRelease(handles[i]);
      if status != 0 && first == 0 {
        first := status;
      }
      LogSnoc(t, Release(handles[i], status));
      FirstErrorSnoc(t, Release(handles[i], status));
      t := t + [Release(handles[i], status)];
    }
  }

  // ------------------------------------------------------------------ logs of whole loops

  lemma LogConcat(a: seq<Call>, b: seq<Call>)
    ensures StuckHandles(a + b) == StuckHandles(a) + StuckHandles(b)
    ensures StuckRanges(a + b) == StuckRanges(a) + StuckRanges(b)
    ensures Released(a + b) == Released(a) + Released(b)
    ensures Unmapped(a + b) == Unmapped(a) + Unmapped(b)
  {
    assert forall d :: d in a + b <==> d in a || d in b;
  }

  lemma {:induction false} FirstErrorConcat(a: seq<Call>, b: seq<Call>)
    ensures FirstError(a + b) == if FirstError(a) != 0 then FirstError(a) else FirstError(b)
  {
    if b == [] {
      assert a + b == a;
    } else {
      var init, last := b[..|b| - 1], b[|b| - 1];
      FirstErrorConcat(a, init);
      assert a + b == (a + init) + [last];
      assert b == init + [last];
      FirstErrorSnoc(a + init, last);
      FirstErrorSnoc(init, last);
    }
  }

  /** One successful create per chunk, of that chunk's size. */
  ghost predicate CreatedEach(t: seq<Call>, sizes: seq<nat>, handles: seq<nat>) {
    && |t| == |sizes| == |handles|
    && forall i :: 0 <= i < |t| ==> t[i] == Create(handles[i], sizes[i], 0)
  }

  ghost predicate Creates(t: seq<Call>) { forall c :: c in t ==> c.Create? || c.Map? }

  lemma CreatesUndoNothing(t: seq<Call>)
    requires Creates(t)
    ensures StuckHandles(t) == {} && StuckRanges(t) == {} && Released(t) == {} && Unmapped(t) == {}
  {
  }

  lemma UnmapsOnly(t: seq<Call>, mem: int, sizes: seq<nat>, n: nat)
    requires Unmaps(t, mem, sizes, n)
    ensures StuckHandles(t) == {} && Released(t) == {}
  {
  }

  lemma ReleasesOnly(t: seq<Call>, handles: seq<nat>, n: nat)
    requires Releases(t, handles, n)
    ensures StuckRanges(t) == {} && Unmapped(t) == {}
  {
  }

  /** Each distinct handle was either released or is stuck. */
  lemma ReleasedOrStuck(t: seq<Call>, handles: seq<nat>)
    requires Releases(t, handles, |handles|) && NoDup(handles)
    ensures forall h :: h in handles <==> h in Released(t) || h in StuckHandles(t)
    ensures forall h :: !(h in Released(t) && h in StuckHandles(t))
    ensures FirstError(t) == 0 ==> StuckHandles(t) == {}
  {
    forall h | h in handles ensures h in Released(t) || h in StuckHandles(t) {
      var i :| 0 <= i < |handles| && handles[i] == h;
      assert t[i] in t;
    }
    FirstErrorMeaning(t);
  }

  /** The map built by mapping the first `n` chunks side by side from `mem`. */
  ghost function Tiled(mem: int, sizes: seq<nat>, handles: seq<nat>, n: nat): map<int, Chunk>
    requires n <= |sizes| && n <= |handles|
  {
    if n == 0 then map[]
    else Tiled(mem, sizes, handles, n - 1)[mem + Offset(sizes, n - 1) := Chunk(sizes[n - 1], handles[n - 1])]
  }

  ghost predicate Apart(sizes: seq<nat>, n: nat) {
    n <= |sizes| && forall i, j :: 0 <= i < j < n ==> Offset(sizes, i) != Offset(sizes, j)
  }

  lemma {:induction false} TiledKeys(mem: int, sizes: seq<nat>, handles: seq<nat>, n: nat, a: int)
    requires n <= |sizes| && n <= |handles|
    ensures a in Tiled(mem, sizes, handles, n) <==> exists i :: 0 <= i < n && a == mem + Offset(sizes, i)
  {
    if n > 0 {
      TiledKeys(mem, sizes, handles, n - 1, a);
      assert a == mem + Offset(sizes, n - 1) ==> exists i :: 0 <= i < n && a == mem + Offset(sizes, i);
    }
  }

  lemma AttemptedRanges(t: seq<Call>, mem: int, sizes: seq<nat>, handles: seq<nat>, n: nat, a: int)
    requires n <= |handles| && Unmaps(t, mem, sizes, n)
    ensures a in Tiled(mem, sizes, handles, n) <==> a in Unmapped(t) || a in StuckRanges(t)
  {
    hide Offset, Tiled;
    TiledKeys(mem, sizes, handles, n, a);
    if a in Tiled(mem, sizes, handles, n) {
      var i :| 0 <= i < n && a == mem + Offset(sizes, i);
      assert t[i] in t;
    }
    if a in Unmapped(t) || a in StuckRanges(t) {
      var i :| 0 <= i < |t| && t[i].Unmap? && t[i].addr == a;
      assert a == mem + Offset(sizes, i);
    }
  }

  lemma RangesOnce(t: seq<Call>, mem: int, sizes: seq<nat>, n: nat, a: int)
    requires Unmaps(t, mem, sizes, n) && Apart(sizes, n)
    ensures !(a in Unmapped(t) && a in StuckRanges(t))
  {
    hide Offset;
    forall i, j | 0 <= i < |t| && 0 <= j < |t| && t[i].addr == t[j].addr ensures i == j {
      assert Offset(sizes, i) == Offset(sizes, j);
    }
  }

  /** Each distinct range was either unmapped or is stuck. */
  lemma UnmappedOrStuck(t: seq<Call>, mem: int, sizes: seq<nat>, handles: seq<nat>, n: nat)
    requires n <= |handles| && Unmaps(t, mem, sizes, n) && Apart(sizes, n)
    ensures forall a :: a in Tiled(mem, sizes, handles, n) <==> a in Unmapped(t) || a in StuckRanges(t)
    ensures forall a :: !(a in Unmapped(t) && a in StuckRanges(t))
    ensures FirstError(t) == 0 ==> StuckRanges(t) == {}
  {
    hide Offset, Tiled, FirstError, Unmapped;
    forall a ensures a in Tiled(mem, sizes, handles, n) <==> a in Unmapped(t) || a in StuckRanges(t) {
      AttemptedRanges(t, mem, sizes, handles, n, a);
    }
    forall a ensures !(a in Unmapped(t) && a in StuckRanges(t)) { RangesOnce(t, mem, sizes, n, a); }
    FirstErrorMeaning(t);
  }

  // ------------------------------------------------------------------ the allocator

  /** Everything `before` is still there and only `stuck` was added. */
  ghost predicate OnlyStuck(before: map<int, Chunk>, after: map<int, Chunk>, stuck: set<int>) {
    && (forall a :: a in after <==> a in before || a in stuck)
    && forall a :: a in before ==> after[a] == before[a]
  }

  lemma NothingStuck(before: map<int, Chunk>, after: map<int, Chunk>)
    requires OnlyStuck(before, after, {})
    ensures after == before
  {
    forall a ensures a in after <==> a in before { }
    forall a | a in before ensures after[a] == before[a] { }
  }

  class Allocator {
    var errorCode: int
    const driver: Driver

    constructor (d: Driver)
      ensures errorCode == 0 && driver == d
    {
      errorCode, driver := 0, d;
    }

    /**
     The first stage. Without a pending error a failure leaves only handles whose clean-up release failed. With
     one, the first create is taken for a failure whatever the driver said, and its handle is dropped.
     */
    method CreateAll(sizes: seq<nat>) returns (handles: seq<nat>, ok: bool, ghost t: seq<Call>)
      requires driver.Valid()
      modifies this, driver
      ensures driver.Valid() && driver.mapped == old(driver.mapped) && driver.log == old(driver.log) + t
      ensures StuckRanges(t) == {} && (old(errorCode) == 0 ==> errorCode == FirstError(t) && (ok <==> errorCode == 0))
      ensures ok ==> CreatedEach(t, sizes, handles)
      ensures ok ==> errorCode == old(errorCode) && |handles| == |sizes| && NoDup(handles) && StuckHandles(t) == {}
      ensures ok ==> driver.live == old(driver.live) + Elems(handles) && Elems(handles) !! old(driver.live)
      ensures old(errorCode) == 0 && !ok ==> errorCode != 0 && driver.live == old(driver.live) + StuckHandles(t)
      ensures old(errorCode) != 0 && sizes != [] ==> !ok && errorCode != 0 && |t| == 1 && t[0].Create?
      ensures old(errorCode) != 0 && sizes != [] ==> t[0].status == Answer(old(driver.script))
      ensures old(errorCode) != 0 && sizes != [] ==>
                driver.live == (if t[0].status == 0 then old(driver.live) + {t[0].handle} else old(driver.live)) &&
                (t[0].status == 0 ==> t[0].handle !in old(driver.live))
    {
      hide StuckHandles, StuckRanges, Released, Unmapped, FirstError;
      handles, ok, t := [], true, [];
      NothingDone();
      CreatesUndoNothing(t);
      for i := 0 to |sizes|
        invariant driver.Valid() && driver.mapped == old(driver.mapped) && driver.log == old(driver.log) + t
        invariant |handles| == i && NoDup(handles) && Creates(t) && |t| == i
        invariant FirstError(t) == 0 && CreatedEach(t, sizes[..i], handles)
        invariant driver.live == old(driver.live) + Elems(handles) && Elems(handles) !! old(driver.live)
        invariant errorCode == old(errorCode) && (i > 0 ==> errorCode == 0) &&
                  (i == 0 ==> driver.script == old(driver.script))
      {
        var status, h := driver.MemCreate(sizes[i]);
        if status != 0 {
          errorCode := status;
        }
        FirstErrorSnoc(t, Create(h, sizes[i], status));
        t := t + [Create(h, sizes[i], status)];
        if errorCode != 0 {
          var _, tr := ReleaseEach(driver, handles, i);
          ok := false;
          CreatesUndoNothing(t);
          LogConcat(t, tr);
          FirstErrorConcat(t, tr);
          ReleasesOnly(tr, handles, i);
          ReleasedOrStuck(tr, handles);
          t := t + tr;
          return;
        }
        NoDupSnoc(handles, h);
        ElemsAppend(handles, [h]);
        handles := handles + [h];
      }
      CreatesUndoNothing(t);
    }

    /** The second stage: the chunks mapped side by side, everything undone when one cannot be. */
    method MapAll(mem: int, sizes: seq<nat>, handles: seq<nat>) returns (ok: bool, ghost t: seq<Call>)
      requires driver.Valid() && errorCode == 0 && |handles| == |sizes| && NoDup(handles) &&
               Elems(handles) <= driver.live
      modifies this, driver
      ensures driver.Valid() && driver.log == old(driver.log) + t
      ensures errorCode == FirstError(t) && (ok <==> errorCode == 0)
      ensures ok ==> driver.live == old(driver.live) && StuckHandles(t) == {} && StuckRanges(t) == {}
      ensures ok ==> Apart(sizes, |sizes|) && driver.mapped == old(driver.mapped) + Tiled(mem, sizes, handles, |sizes|)
      ensures ok ==> forall a :: a in Tiled(mem, sizes, handles, |sizes|) ==> a !in old(driver.mapped)
      ensures !ok ==> driver.live == (old(driver.live) - Elems(handles)) + StuckHandles(t)
      ensures !ok ==> OnlyStuck(old(driver.mapped), driver.mapped, StuckRanges(t))
    {
      hide StuckHandles, StuckRanges, Released, Unmapped, Tiled, Apart, Offset, FirstError;
      ok, t := true, [];
      NothingDone();
      var offset := 0;
      CreatesUndoNothing(t);
      NothingMapped(mem, sizes, handles);
      for i := 0 to |sizes|
        invariant driver.Valid() && driver.log == old(driver.log) + t && driver.live == old(driver.live)
        invariant errorCode == 0 == FirstError(t) && offset == Offset(sizes, i) && Creates(t) && Apart(sizes, i)
        invariant driver.mapped == old(driver.mapped) + Tiled(mem, sizes, handles, i)
        invariant forall a :: a in Tiled(mem, sizes, handles, i) ==> a !in old(driver.mapped)
      {
        var status := driver.MemMap(mem + offset, sizes[i], handles[i]);
        if status != 0 {
          errorCode := status;
        }
        FirstErrorSnoc(t, Map(mem + offset, sizes[i], handles[i], status));
        t := t + [Map(mem + offset, sizes[i], handles[i], status)];
        if errorCode != 0 {
          ghost var tc := UndoMaps(driver, mem, sizes, handles, i, old(driver.mapped));
          ok := false;
          CreatesUndoNothing(t);
          LogConcat(t, tc);
          FirstErrorConcat(t, tc);
          t := t + tc;
          return;
        }
        MappedNext(mem, sizes, handles, i, old(driver.mapped));
        offset := offset + sizes[i];
      }
      CreatesUndoNothing(t);
    }

    /** Both stages. */
    method CreateAndMap(mem: int, sizes: seq<nat>) returns (handles: seq<nat>, ghost t: seq<Call>)
      requires driver.Valid()
      modifies this, driver
      ensures driver.Valid() && driver.log == old(driver.log) + t
      ensures old(errorCode) == 0 ==> errorCode == FirstError(t)
      ensures old(errorCode) == 0 && errorCode == 0 ==> |sizes| <= |t| && CreatedEach(t[..|sizes|], sizes, handles)
      ensures old(errorCode) == 0 && errorCode == 0 ==>
                && |handles| == |sizes| && NoDup(handles) && Elems(handles) !! old(driver.live) && Apart(sizes, |sizes|)
                && driver.live == old(driver.live) + Elems(handles)
                && driver.mapped == old(driver.mapped) + Tiled(mem, sizes, handles, |sizes|)
                && forall a :: a in Tiled(mem, sizes, handles, |sizes|) ==> a !in old(driver.mapped)
      ensures old(errorCode) == 0 && errorCode != 0 ==>
                driver.live == old(driver.live) + StuckHandles(t) &&
                    OnlyStuck(old(driver.mapped), driver.mapped, StuckRanges(t))
      ensures old(errorCode) == 0 && errorCode != 0 && StuckHandles(t) == {} && StuckRanges(t) == {} ==>
                driver.live == old(driver.live) && driver.mapped == old(driver.mapped)
      ensures old(errorCode) != 0 && sizes != [] ==>
                && errorCode != 0 && |t| == 1 && t[0].Create? && driver.mapped == old(driver.mapped)
                && t[0].status == Answer(old(driver.script))
                && driver.live == (if t[0].status == 0 then old(driver.live) + {t[0].handle} else old(driver.live))
                && (t[0].status == 0 ==> t[0].handle !in old(driver.live))
    {
      hide StuckHandles, StuckRanges, Tiled, Apart, NoDup, FirstError;
      var ok;
      handles, ok, t := CreateAll(sizes);
      if ok && errorCode == 0 {
        var fine;
        ghost var tm;
        fine, tm := MapAll(mem, sizes, handles);
        LogConcat(t, tm);
        FirstErrorConcat(t, tm);
        assert |t| == |sizes| && (t + tm)[..|sizes|] == t;
        t := t + tm;
        if errorCode != 0 && StuckRanges(t) == {} { NothingStuck(old(driver.mapped), driver.mapped); }
      }
    }

    /** Best effort: every chunk is unmapped and every handle released whatever fails; the first failure is recorded. */
    method UnmapAndRelease(mem: int, sizes: seq<nat>, handles: seq<nat>)
      returns (ghost tu: seq<Call>, ghost tr: seq<Call>)
      requires driver.Valid() && |handles| == |sizes|
      modifies this, driver
      ensures driver.Valid() && driver.log == old(driver.log) + tu + tr
      ensures Unmaps(tu, mem, sizes, |sizes|) && Releases(tr, handles, |handles|)
      ensures driver.mapped == old(driver.mapped) - Unmapped(tu) && driver.live == old(driver.live) - Released(tr)
      ensures errorCode == if FirstError(tu + tr) != 0 then FirstError(tu + tr) else old(errorCode)
    {
      var firstUnmap, firstRelease;
      firstUnmap, tu := UnmapEach(driver, mem, sizes, |sizes|);
      firstRelease, tr := ReleaseEach(driver, handles, |handles|);
      var first := if firstUnmap != 0 then firstUnmap else firstRelease;
      if first != 0 {
        errorCode := first;
      }
      FirstErrorConcat(tu, tr);
    }

    /**
     An allocation request once its address range `mem` is reserved. A pending error refuses it before the driver
     is asked for anything; otherwise it either tiles the range with mapped chunks or is rolled back. A chunk size
     that wraps to zero traps in the division by it.
     */
    method Allocate(size: nat, g: nat, env: Setting, mem: int, queryStatus: int)
      returns (ok: bool, trapped: bool, sizes: seq<nat>, handles: seq<nat>, ghost t: seq<Call>)
      requires driver.Valid() && 0 < size < U64 && 0 < g < U64 && (env.Megabytes? ==> env.value < U64)
      modifies this, driver
      ensures driver.Valid() && driver.log == old(driver.log) + t && (ok <==> !trapped && errorCode == 0)
      ensures trapped <==> old(errorCode) == 0 && queryStatus == 0 && ChunkSetting(env) + g - 1 >= U64
      ensures old(errorCode) == 0 && !trapped ==> errorCode == if queryStatus != 0 then queryStatus else FirstError(t)
      ensures queryStatus != 0 ==> t == []
      ensures trapped ==> t == [] && driver.live == old(driver.live) && driver.mapped == old(driver.mapped)
      ensures old(errorCode) != 0 ==>
                !ok && t == [] && driver.live == old(driver.live) && driver.mapped == old(driver.mapped)
      ensures ok && NoOverflow(size, g, ChunkSetting(env)) ==>
                IsRoundUp(size, g, Offset(sizes, |sizes|)) && Tile(sizes, g, Offset(sizes, |sizes|))
      ensures ok ==> |sizes| <= |t| && CreatedEach(t[..|sizes|], sizes, handles)
      ensures ok ==> forall i :: 0 <= i < |sizes| ==> sizes[i] <= RoundUpWrapped(ChunkSetting(env), g)
      ensures ok ==>
                && |handles| == |sizes| && NoDup(handles) && Elems(handles) !! old(driver.live)
                && driver.live == old(driver.live) + Elems(handles)
                && driver.mapped == old(driver.mapped) + Tiled(mem, sizes, handles, |sizes|)
                && forall a :: a in Tiled(mem, sizes, handles, |sizes|) ==> a !in old(driver.mapped)
      ensures !ok && StuckHandles(t) == {} && StuckRanges(t) == {} ==>
                driver.live == old(driver.live) && driver.mapped == old(driver.mapped)
    {
      hide StuckHandles, StuckRanges, Tiled, Apart, NoDup, RoundUpWrapped, FirstError, CreatedEach;
      hide Tile, NoOverflow, IsRoundUp, ChunkSetting, SizeAt, CountWrapped;
      ok, trapped, sizes, handles, t := false, false, [], [], [];
      if queryStatus != 0 {
        errorCode := queryStatus;
      }
      if errorCode != 0 {
        return;
      }
      var aligned := RoundUpWrapped(size, g);
      var chunk := RoundUpWrapped(ChunkSetting(env), g);
      AlignedBelow(size, g);
      AlignedBelow(ChunkSetting(env), g);
      ZeroIff(ChunkSetting(env), g);
      if chunk == 0 {
        trapped := true;
        return;
      }
      var cut := FillChunks(aligned, chunk);
      sizes := cut[..];
      ChunkingIff(size, g, ChunkSetting(env), sizes);
      AtMostChunk(sizes, aligned, chunk);
      handles, t := CreateAndMap(mem, sizes);
      ok := errorCode == 0;
    }

    /** Creating and releasing without an error leaves the driver as it was. */
    method Cycle(mem: int, sizes: seq<nat>)
      requires driver.Valid() && errorCode == 0
      modifies this, driver
      ensures driver.Valid()
      ensures errorCode == 0 ==> driver.live == old(driver.live) && driver.mapped == old(driver.mapped)
    {
      hide StuckHandles, StuckRanges, Tiled, Apart, NoDup, Released, Unmapped, FirstError;
      var handles; ghost var t;
      handles, t := CreateAndMap(mem, sizes);
      if errorCode == 0 {
        ghost var tu, tr := UnmapAndRelease(mem, sizes, handles);
        FirstErrorConcat(tu, tr);
        UnmappedOrStuck(tu, mem, sizes, handles, |sizes|);
        ReleasedOrStuck(tr, handles);
        if errorCode == 0 { RemoveAdded(old(driver.mapped), Tiled(mem, sizes, handles, |sizes|), Unmapped(tu)); }
      }
    }

    /** Any number of cycles, each on its own request, stopping at the first error. */
    method Cycles(requests: seq<(int, seq<nat>)>)
      requires driver.Valid() && errorCode == 0
      modifies this, driver
      ensures driver.Valid()
      ensures errorCode == 0 ==> driver.live == old(driver.live) && driver.mapped == old(driver.mapped)
    {
      for i := 0 to |requests|
        invariant driver.Valid()
        invariant errorCode == 0 ==> driver.live == old(driver.live) && driver.mapped == old(driver.mapped)
      {
        if errorCode != 0 {
          return;
        }
        Cycle(requests[i].0, requests[i].1);
      }
    }
  }

  /**
   A pending error leaks: the driver grants the first chunk, the allocator takes the old error for a failure and
   reports one, and the granted handle stays live with nobody holding it.
   */
  method PendingErrorLeaks(code: int) returns (a: Allocator)
    requires code != 0
    ensures a.errorCode != 0 && a.driver.mapped == map[] && |a.driver.live| == 1
  {
    var d := new Driver([0]);
    a := new Allocator(d);
    a.errorCode := code;
    var handles; ghost var t;
    handles, t := a.CreateAndMap(0, [MB]);
    assert a.driver.live == {} + {t[0].handle};
  }

  lemma RemoveAdded(before: map<int, Chunk>, added: map<int, Chunk>, gone: set<int>)
    requires forall a :: a in added <==> a in gone
    requires forall a :: a in added ==> a !in before
    ensures (before + added) - gone == before
  {
    var after := (before + added) - gone;
    forall a ensures a in after <==> a in before { }
    forall a | a in before ensures after[a] == before[a] { assert a !in added; }
  }

  lemma NothingMapped(mem: int, sizes: seq<nat>, handles: seq<nat>)
    ensures Tiled(mem, sizes, handles, 0) == map[] && Apart(sizes, 0) && Offset(sizes, 0) == 0
  {
  }

  /** A successful map call extends the tiling by one range that was free. */
  lemma MappedNext(mem: int, sizes: seq<nat>, handles: seq<nat>, i: nat, before: map<int, Chunk>)
    requires i < |sizes| && |handles| == |sizes| && Apart(sizes, i)
    requires mem + Offset(sizes, i) !in before + Tiled(mem, sizes, handles, i)
    ensures Apart(sizes, i + 1) && Offset(sizes, i + 1) == Offset(sizes, i) + sizes[i]
    ensures Tiled(mem, sizes, handles, i + 1) ==
            Tiled(mem, sizes, handles, i)[mem + Offset(sizes, i) := Chunk(sizes[i], handles[i])]
    ensures before + Tiled(mem, sizes, handles, i + 1) ==
            (before + Tiled(mem, sizes, handles, i))[mem + Offset(sizes, i) := Chunk(sizes[i], handles[i])]
  {
    hide Tiled;
    assert Tiled(mem, sizes, handles, i + 1) ==
           Tiled(mem, sizes, handles, i)[mem + Offset(sizes, i) := Chunk(sizes[i], handles[i])] by {
      TiledNext(mem, sizes, handles, i);
    }
    forall k | 0 <= k < i ensures Offset(sizes, k) != Offset(sizes, i) {
      TiledKeys(mem, sizes, handles, i, mem + Offset(sizes, k));
    }
  }

  lemma TiledNext(mem: int, sizes: seq<nat>, handles: seq<nat>, i: nat)
    requires i < |sizes| && |handles| == |sizes|
    ensures Tiled(mem, sizes, handles, i + 1) ==
            Tiled(mem, sizes, handles, i)[mem + Offset(sizes, i) := Chunk(sizes[i], handles[i])]
  {
  }

  /** The clean-up after a failed map: the ranges mapped so far, then all handles. */
  method UndoMaps(d: Driver, mem: int, sizes: seq<nat>, handles: seq<nat>, i: nat, ghost before: map<int, Chunk>)
    returns (ghost t: seq<Call>)
    requires d.Valid() && i <= |sizes| && |handles| == |sizes| && NoDup(handles) && Elems(handles) <= d.live &&
             Apart(sizes, i)
    requires d.mapped == before + Tiled(mem, sizes, handles, i)
    requires forall a :: a in Tiled(mem, sizes, handles, i) ==> a !in before
    modifies d
    ensures d.Valid() && d.log == old(d.log) + t
    ensures d.live == (old(d.live) - Elems(handles)) + StuckHandles(t)
    ensures OnlyStuck(before, d.mapped, StuckRanges(t))
  {
    hide StuckHandles, StuckRanges, Released, Unmapped, Tiled, Apart, Offset, FirstError, NoDup;
    var _, u := UnmapEach(d, mem, sizes, i);
    var _, r := ReleaseEach(d, handles, |handles|);
    UnmappedOrStuck(u, mem, sizes, handles, i);
    ReleasedOrStuck(r, handles);
    UnmapsOnly(u, mem, sizes, i);
    ReleasesOnly(r, handles, |handles|);
    LogConcat(u, r);
    t := u + r;
  }
}
