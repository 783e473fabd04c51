/** Which live allocations a dense page has lost from its bucket, over whole runs. */
module IndexLoss {
  import opened Words
  import opened RangeIndex
  import opened IndexInvariants
  import opened Sentinel
  import opened HeapTracker
  import opened FreeHistory

  /** The slots that have the base are the same. */
  predicate SameSlots(b: Bucket, b': Bucket, addr: u64) {
    (b'[0].base == addr <==> b[0].base == addr) && SameUpperSlots(b, b', addr)
  }

  predicate SameUpperSlots(b: Bucket, b': Bucket, addr: u64) {
    && (b'[1].base == addr <==> b[1].base == addr)
    && (b'[2].base == addr <==> b[2].base == addr)
    && (b'[3].base == addr <==> b[3].base == addr)
  }

  /** No slot gains the base, and only slot 0 can lose it, to another allocation. */
  predicate KeepsSlots(b: Bucket, b': Bucket, addr: u64) {
    && (b'[0].base == addr ==> b[0].base == addr)
    && (b[0].base == addr ==> b'[0].base != 0)
    && SameUpperSlots(b, b', addr)
  }

  lemma UnindexedKeeps(r: Ranges, o: AllocKey, info: AllocInfo, key: AllocKey, k: RangeKey)
    requires o != key && k.pid == key.pid && key.addr != 0
    ensures SameSlots(BucketAt(r, k), BucketAt(Unindexed(r, o, info), k), key.addr)
  {
  }

  lemma IndexedKeeps(r: Ranges, o: AllocKey, info: AllocInfo, key: AllocKey, k: RangeKey)
    requires o != key && k.pid == key.pid && key.addr != 0 && o.addr != 0
    ensures KeepsSlots(BucketAt(r, k), BucketAt(Indexed(r, o, info), k), key.addr)
  {
    if k in Span(o, info) {
      var b := BucketAt(r, k);
      assert Target(b, o.addr) != 0 ==> Usable(b[Target(b, o.addr)], o.addr);
    }
  }

  lemma TrackKeeps(h: Heap, made: AllocKey, info: AllocInfo, key: AllocKey, k: RangeKey)
    requires made != key && k.pid == key.pid && key.addr != 0 && made.addr != 0
    ensures KeepsSlots(BucketAt(h.ranges, k), BucketAt(Track(h, made, info).ranges, k), key.addr)
  {
    var ranges := h.ranges;
    if made in h.allocs {
      UnindexedKeeps(h.ranges, made, h.allocs[made], key, k);
      ranges := Unindexed(h.ranges, made, h.allocs[made]);
    }
    IndexedKeeps(ranges, made, info, key, k);
  }

  lemma TrackStores(h: Heap, key: AllocKey, info: AllocInfo, page: nat)
    requires OnPage(key.addr, info.size, page)
    ensures Holds(BucketAt(Track(h, key, info).ranges, RangeKey(key.pid, page)), key.addr)
  {
    var ranges := if key in h.allocs then Unindexed(h.ranges, key, h.allocs[key]) else h.ranges;
    var k := RangeKey(key.pid, page);
    assert k in Span(key, info);
    var b := BucketAt(ranges, k);
    assert Stored(b, key.addr, info)[Target(b, key.addr)].base == key.addr;
  }

  /** The allocation stays as it is, and at most loses slot 0 of the bucket. */
  predicate Kept(h: Heap, h': Heap, key: AllocKey, k: RangeKey) {
    && KeepsSlots(BucketAt(h.ranges, k), BucketAt(h'.ranges, k), key.addr)
    && (key in h'.allocs <==> key in h.allocs) && (key in h.allocs ==> h'.allocs[key] == h.allocs[key])
  }

  lemma ReturnKeeps(h: Heap, t: Task, ret: u64, size: Option<u64>, family: AllocFamily, env: Env, key: AllocKey,
                    k: RangeKey)
    requires k.pid == key.pid && key.addr != 0
    requires AllocTouch(h, t, ret, size, family, env, key).Untouched?
    ensures Kept(h, AllocReturn(h, t, ret, size, family, env), key, k)
  {
    if ret != 0 && StateFound(h, t.pid, env) && Tracks(size, family) {
      TrackKeeps(h, AllocKey(t.pid, ret), ReturnedInfo(size, family, env), key, k);
    }
  }

  lemma ReturnStores(h: Heap, t: Task, ret: u64, size: Option<u64>, family: AllocFamily, env: Env, key: AllocKey,
                     page: nat)
    requires AllocTouch(h, t, ret, size, family, env, key).Allocated?
    requires OnPage(key.addr, SizeOr0(size), page)
    ensures var h' := AllocReturn(h, t, ret, size, family, env);
      && Holds(BucketAt(h'.ranges, RangeKey(key.pid, page)), key.addr)
      && key in h'.allocs && h'.allocs[key].size == SizeOr0(size)
  {
    TrackStores(h, key, ReturnedInfo(size, family, env), page);
  }

  lemma MarkFreedKeeps(h: Heap, gone: AllocKey, key: AllocKey, k: RangeKey)
    requires gone != key && k.pid == key.pid && key.addr != 0
    ensures var h' := MarkFreed(h, gone);
      && SameSlots(BucketAt(h.ranges, k), BucketAt(h'.ranges, k), key.addr)
      && (key in h'.allocs <==> key in h.allocs) && (key in h.allocs ==> h'.allocs[key] == h.allocs[key])
  {
    if gone in h.allocs {
      UnindexedKeeps(h.ranges, gone, h.allocs[gone], key, k);
    }
  }

  lemma ReallocKeeps(h: Heap, t: Task, ret: u64, env: Env, key: AllocKey, k: RangeKey)
    requires k.pid == key.pid && key.addr != 0 && ReallocTouch(h, t, ret, env, key).Untouched?
    ensures Kept(h, ReallocReturn(h, t, ret, env), key, k)
  {
    var oldPtr := if t.tid in h.reallocOld then h.reallocOld[t.tid] else 0;
    var h1 := h.(pending := h.pending - {t.tid}, reallocOld := h.reallocOld - {t.tid});
    var size := TakenSize(h, t.tid);
    if key != AllocKey(t.pid, oldPtr) {
      MarkFreedKeeps(h1, AllocKey(t.pid, oldPtr), key, k);
    }
    if ret != 0 {
      var h2 := if oldPtr != 0 && oldPtr != ret then MarkFreed(h1, AllocKey(t.pid, oldPtr)) else h1;
      assert AllocTouch(h2, t, ret, size, AllocMalloc, env, key) == AllocTouch(h, t, ret, size, AllocMalloc, env, key);
      ReturnKeeps(h2, t, ret, size, AllocMalloc, env, key, k);
    }
  }

  lemma ReallocStores(h: Heap, t: Task, ret: u64, env: Env, key: AllocKey, page: nat)
    requires ReallocTouch(h, t, ret, env, key).Allocated? && OnPage(key.addr, SizeOr0(TakenSize(h, t.tid)), page)
    ensures var h' := ReallocReturn(h, t, ret, env);
      && Holds(BucketAt(h'.ranges, RangeKey(key.pid, page)), key.addr)
      && key in h'.allocs && h'.allocs[key].size == SizeOr0(TakenSize(h, t.tid))
  {
    var oldPtr := if t.tid in h.reallocOld then h.reallocOld[t.tid] else 0;
    var h1 := h.(pending := h.pending - {t.tid}, reallocOld := h.reallocOld - {t.tid});
    var h2 := if oldPtr != 0 && oldPtr != ret then MarkFreed(h1, AllocKey(t.pid, oldPtr)) else h1;
    ReturnStores(h2, t, ret, TakenSize(h, t.tid), AllocMalloc, env, key, page);
  }

  lemma UntrackKeeps(h: Heap, gone: AllocKey, d: DeallocFamily, key: AllocKey, k: RangeKey)
    requires gone in h.allocs && gone != key && k.pid == key.pid && key.addr != 0
    ensures Kept(h, Untrack(h, gone, d), key, k)
  {
    UnindexedKeeps(h.ranges, gone, h.allocs[gone], key, k);
  }

  lemma ReleaseKeeps(h: Heap, t: Task, ptr: u64, d: DeallocFamily, env: Env, key: AllocKey, k: RangeKey)
    requires k.pid == key.pid && key.addr != 0 && key in Deallocate(h, t, ptr, d, env).allocs
    ensures Kept(h, Deallocate(h, t, ptr, d, env), key, k)
  {
    var gone := AllocKey(t.pid, ptr);
    if gone in h.allocs && gone != key {
      UntrackKeeps(h.(chan := ReportedChannel(h, t, ptr, d, env)), gone, d, key, k);
    }
  }

  lemma StepKeeps(h: Heap, p: Probe, key: AllocKey, k: RangeKey)
    requires k.pid == key.pid && key.addr != 0 && !TouchOf(h, p, key).Allocated? && key in Apply(h, p).allocs
    requires h.allocs.Keys !! h.freed.Keys
    ensures Kept(h, Apply(h, p), key, k)
  {
    if p.AllocExit? || p.MemalignExit? {
      ReturnsKeep(h, p, key, k);
    } else if p.ReallocExit? {
      ReallocExitKeeps(h, p, key, k);
    } else if p.Release? {
      ReleaseKeeps(h, p.task, p.ptr, p.dealloc, p.env, key, k);
    } else {
      QuietKeeps(h, p, key, k);
    }
  }

  lemma QuietKeeps(h: Heap, p: Probe, key: AllocKey, k: RangeKey)
    requires (p.Enter? || p.Outside?) && key.addr != 0
    ensures Kept(h, Apply(h, p), key, k)
  {
  }

  lemma ReturnsKeep(h: Heap, p: Probe, key: AllocKey, k: RangeKey)
    requires k.pid == key.pid && key.addr != 0 && !TouchOf(h, p, key).Allocated?
    requires p.AllocExit? || p.MemalignExit?
    ensures Kept(h, Apply(h, p), key, k)
  {
    match p
    case AllocExit(t, ret, family, env) =>
      ReturnKeeps(h.(pending := h.pending - {t.tid}), t, ret, TakenSize(h, t.tid), family, env, key, k);
    case MemalignExit(t, rc, readOk, stored, env) =>
      if rc == 0 && readOk && t.tid in h.outPtr && h.outPtr[t.tid] != 0 {
        var h1 := h.(pending := h.pending - {t.tid}, outPtr := h.outPtr - {t.tid});
        ReturnKeeps(h1, t, stored, TakenSize(h, t.tid), AllocMalloc, env, key, k);
      }
  }

  lemma ReallocExitKeeps(h: Heap, p: Probe, key: AllocKey, k: RangeKey)
    requires k.pid == key.pid && key.addr != 0 && p.ReallocExit? && !TouchOf(h, p, key).Allocated?
    requires key in Apply(h, p).allocs && h.allocs.Keys !! h.freed.Keys
    ensures Kept(h, Apply(h, p), key, k)
  {
    ReallocReturnProjects(h, p.task, p.ret, p.env, key);
    ReallocKeeps(h, p.task, p.ret, p.env, key, k);
  }

  lemma StepStores(h: Heap, p: Probe, key: AllocKey, page: nat)
    requires TouchOf(h, p, key).Allocated? && OnPage(key.addr, TouchOf(h, p, key).info.size, page)
    ensures Holds(BucketAt(Apply(h, p).ranges, RangeKey(key.pid, page)), key.addr)
    ensures key in Apply(h, p).allocs && Apply(h, p).allocs[key].size == TouchOf(h, p, key).info.size
  {
    match p
    case AllocExit(t, ret, family, env) =>
      ReturnStores(h.(pending := h.pending - {t.tid}), t, ret, TakenSize(h, t.tid), family, env, key, page);
    case ReallocExit(t, ret, env) => ReallocStores(h, t, ret, env, key, page);
    case MemalignExit(t, _, _, stored, env) =>
      var h1 := h.(pending := h.pending - {t.tid}, outPtr := h.outPtr - {t.tid});
      ReturnStores(h1, t, stored, TakenSize(h, t.tid), AllocMalloc, env, key, page);
    case _ =>
  }

  /** One step, seen from one bucket of a live allocation. */
  lemma StepMissing(h: Heap, p: Probe, key: AllocKey, page: nat)
    requires Inv(h) && key.addr != 0
    requires key in Apply(h, p).allocs && OnPage(key.addr, Apply(h, p).allocs[key].size, page)
    ensures var k := RangeKey(key.pid, page);
      var b, b' := BucketAt(h.ranges, k), BucketAt(Apply(h, p).ranges, k);
      !Holds(b', key.addr) <==>
        && !TouchOf(h, p, key).Allocated?
        && (!Holds(b, key.addr) || (b[0].base == key.addr && b'[0].base !in {0, key.addr}))
    ensures !TouchOf(h, p, key).Allocated? ==> key in h.allocs && h.allocs[key] == Apply(h, p).allocs[key]
  {
    var k := RangeKey(key.pid, page);
    if TouchOf(h, p, key).Allocated? {
      AllocatedSize(h, p, key);
      StepStores(h, p, key, page);
    } else {
      StepKeeps(h, p, key, k);
      SlotsMove(BucketAt(h.ranges, k), BucketAt(Apply(h, p).ranges, k), key.addr);
    }
  }

  lemma AllocatedSize(h: Heap, p: Probe, key: AllocKey)
    requires Inv(h) && TouchOf(h, p, key).Allocated? && key in Apply(h, p).allocs
    ensures Apply(h, p).allocs[key].size == TouchOf(h, p, key).info.size
  {
    StepProjects(h, p, key);
  }

  // ----- whole runs -----

  function BucketAfter(ps: seq<Probe>, k: RangeKey): Bucket {
    BucketAt(Run(EMPTY_HEAP, ps).ranges, k)
  }

  function TouchAt(ps: seq<Probe>, j: nat, key: AllocKey): Touch
    requires j < |ps|
  {
    TouchOf(Run(EMPTY_HEAP, ps[..j]), ps[j], key)
  }

  /** Step `j` gave slot 0 of the bucket, which the allocation had, to another one. */
  predicate Overwrites(ps: seq<Probe>, j: nat, key: AllocKey, k: RangeKey)
    requires j < |ps|
  {
    && BucketAfter(ps[..j], k)[0].base == key.addr
    && BucketAfter(ps[..j + 1], k)[0].base !in {0, key.addr}
  }

  /** Step `j` overwrote the slot, and the pointer was not allocated from then on. */
  ghost predicate LostAt(ps: seq<Probe>, j: nat, key: AllocKey, k: RangeKey) {
    j < |ps| && Overwrites(ps, j, key, k) && NotAllocatedFrom(ps, j, key)
  }

  ghost predicate NotAllocatedFrom(ps: seq<Probe>, j: nat, key: AllocKey) {
    forall i :: j <= i < |ps| ==> !TouchAt(ps, i, key).Allocated?
  }

  /** Some step since the pointer was last allocated overwrote its slot. */
  ghost predicate LostSlotZero(ps: seq<Probe>, key: AllocKey, k: RangeKey) {
    exists j :: LostAt(ps, j, key, k)
  }

  lemma PrefixSees(ps: seq<Probe>, j: nat, key: AllocKey, k: RangeKey)
    requires j < |ps| - 1
    ensures var before := ps[..|ps| - 1];
      TouchAt(before, j, key) == TouchAt(ps, j, key) && Overwrites(before, j, key, k) == Overwrites(ps, j, key, k)
  {
    assert ps[..|ps| - 1][..j] == ps[..j] && ps[..|ps| - 1][..j + 1] == ps[..j + 1];
  }

  lemma NotAllocatedPrefix(ps: seq<Probe>, j: nat, key: AllocKey)
    requires j < |ps| - 1
    ensures NotAllocatedFrom(ps, j, key) <==>
      NotAllocatedFrom(ps[..|ps| - 1], j, key) && !TouchAt(ps, |ps| - 1, key).Allocated?
  {
    var before := ps[..|ps| - 1];
    forall i: nat | i < |ps| - 1 ensures TouchAt(before, i, key) == TouchAt(ps, i, key) {
      PrefixSees(ps, i, key, RangeKey(0, 0));
    }
    if NotAllocatedFrom(ps, j, key) {
      forall i | j <= i < |before| ensures !TouchAt(before, i, key).Allocated? {
        assert !TouchAt(ps, i, key).Allocated?;
      }
    }
    if NotAllocatedFrom(before, j, key) && !TouchAt(ps, |ps| - 1, key).Allocated? {
      forall i | j <= i < |ps| ensures !TouchAt(ps, i, key).Allocated? {
        assert i < |before| ==> !TouchAt(before, i, key).Allocated?;
      }
    }
  }

  lemma LostAtPrefix(ps: seq<Probe>, j: nat, key: AllocKey, k: RangeKey)
    requires j < |ps| - 1
    ensures LostAt(ps, j, key, k) <==> LostAt(ps[..|ps| - 1], j, key, k) && !TouchAt(ps, |ps| - 1, key).Allocated?
  {
    PrefixSees(ps, j, key, k);
    NotAllocatedPrefix(ps, j, key);
  }

  lemma LostStep(ps: seq<Probe>, key: AllocKey, k: RangeKey)
    requires ps != []
    ensures LostSlotZero(ps, key, k) <==>
      && !TouchAt(ps, |ps| - 1, key).Allocated?
      && (LostSlotZero(ps[..|ps| - 1], key, k) || Overwrites(ps, |ps| - 1, key, k))
  {
    var n := |ps| - 1;
    forall j: nat | j < n
      ensures LostAt(ps, j, key, k) <==> LostAt(ps[..n], j, key, k) && !TouchAt(ps, n, key).Allocated?
    {
      LostAtPrefix(ps, j, key, k);
    }
    assert LostAt(ps, n, key, k) <==> Overwrites(ps, n, key, k) && !TouchAt(ps, n, key).Allocated?;
  }

  lemma SlotsMove(b: Bucket, b': Bucket, addr: u64)
    requires addr != 0 && KeepsSlots(b, b', addr) && DistinctBases(b)
    ensures !Holds(b', addr) <==> !Holds(b, addr) || (b[0].base == addr && b'[0].base !in {0, addr})
  {
    HoldsSomewhere(b, addr);
    HoldsSomewhere(b', addr);
  }

  lemma HoldsSomewhere(b: Bucket, addr: u64)
    ensures Holds(b, addr) <==> b[0].base == addr || b[1].base == addr || b[2].base == addr || b[3].base == addr
  {
  }

  /** In every reachable state, a live allocation is missing from the bucket of one of its
      pages exactly when, since it was allocated, a store found it in slot 0 of the full
      bucket: an allocation in any other slot is never lost. */
  lemma {:induction false} MissingIffSlotZeroLost(ps: seq<Probe>, key: AllocKey, page: nat)
    requires key in Run(EMPTY_HEAP, ps).allocs && OnPage(key.addr, Run(EMPTY_HEAP, ps).allocs[key].size, page)
    ensures var k := RangeKey(key.pid, page);
      !Holds(BucketAfter(ps, k), key.addr) <==> LostSlotZero(ps, key, k)
  {
    if ps != [] {
      var before, last, k := ps[..|ps| - 1], |ps| - 1, RangeKey(key.pid, page);
      ReachableInv(before);
      ReachableInv(ps);
      StepMissing(Run(EMPTY_HEAP, before), ps[last], key, page);
      LostStep(ps, key, k);
      assert ps[..last + 1] == ps;
      if !TouchAt(ps, last, key).Allocated? {
        MissingIffSlotZeroLost(before, key, page);
      }
    }
  }
}
