/** The index over whole runs: complete exactly while pages are sparse, and then
    equivalent to scanning every live allocation. */
module IndexRuns {
  import opened Words
  import opened RangeIndex
  import opened IndexInvariants
  import opened Sentinel
  import opened HeapTracker

  ghost predicate IndexComplete(h: Heap) {
    Complete(h.allocs, h.ranges)
  }

  lemma UntrackKeepsComplete(h: Heap, key: AllocKey, d: DeallocFamily)
    requires Inv(h) && key in h.allocs && IndexComplete(h)
    ensures IndexComplete(Untrack(h, key, d))
  {
    RemovalKeepsIndex(h.allocs, h.ranges, key);
  }

  lemma TrackCompleteIffSparse(h: Heap, key: AllocKey, info: AllocInfo)
    requires Inv(h) && key.addr != 0 && IndexComplete(h)
    ensures IndexComplete(Track(h, key, info)) <==> Sparse(Track(h, key, info).allocs)
  {
    var allocs, ranges := h.allocs - {key}, h.ranges;
    if key in h.allocs {
      RemovalKeepsIndex(h.allocs, h.ranges, key);
      ranges := Unindexed(h.ranges, key, h.allocs[key]);
    } else {
      assert allocs == h.allocs;
    }
    InsertionCompleteIffSparse(allocs, ranges, key, info);
    assert allocs[key := info] == h.allocs[key := info];
  }

  lemma AllocReturnCompleteIffSparse(h: Heap, t: Task, ret: u64, size: Option<u64>, family: AllocFamily, env: Env)
    requires Inv(h) && IndexComplete(h)
    ensures var h' := AllocReturn(h, t, ret, size, family, env);
      IndexComplete(h') <==> Sparse(h'.allocs)
  {
    CompleteImpliesSparse(h.allocs, h.ranges);
    if ret != 0 {
      TrackCompleteIffSparse(h, AllocKey(t.pid, ret), ReturnedInfo(size, family, env));
    }
  }

  lemma ReallocReturnCompleteIffSparse(h: Heap, t: Task, ret: u64, env: Env)
    requires Inv(h) && IndexComplete(h)
    ensures var h' := ReallocReturn(h, t, ret, env);
      IndexComplete(h') <==> Sparse(h'.allocs)
  {
    var oldPtr := if t.tid in h.reallocOld then h.reallocOld[t.tid] else 0;
    var key := AllocKey(t.pid, oldPtr);
    var h1 := h.(pending := h.pending - {t.tid}, reallocOld := h.reallocOld - {t.tid});
    CompleteImpliesSparse(h1.allocs, h1.ranges);
    var freed := MarkFreed(h1, key);
    if key in h.allocs {
      UntrackKeepsInv(h1, key, DeallocFree);
      UntrackKeepsComplete(h1, key, DeallocFree);
      CompleteImpliesSparse(freed.allocs, freed.ranges);
    }
    if ret != 0 {
      var h2 := if oldPtr != 0 && oldPtr != ret then freed else h1;
      AllocReturnCompleteIffSparse(h2, t, ret, TakenSize(h, t.tid), AllocMalloc, env);
    }
  }

  lemma ReleaseKeepsBoth(h: Heap, t: Task, ptr: u64, d: DeallocFamily, env: Env)
    requires Inv(h) && IndexComplete(h)
    ensures IndexComplete(Deallocate(h, t, ptr, d, env)) && Sparse(Deallocate(h, t, ptr, d, env).allocs)
  {
    var key := AllocKey(t.pid, ptr);
    CompleteImpliesSparse(h.allocs, h.ranges);
    if key in h.allocs {
      RemovalKeepsIndex(h.allocs, h.ranges, key);
      CompleteImpliesSparse(h.allocs - {key}, Unindexed(h.ranges, key, h.allocs[key]));
    }
  }

  lemma UntouchedIndex(h: Heap, h': Heap)
    requires Inv(h) && IndexComplete(h) && h'.allocs == h.allocs && h'.ranges == h.ranges
    ensures IndexComplete(h') && Sparse(h'.allocs)
  {
    CompleteImpliesSparse(h.allocs, h.ranges);
  }

  lemma MemalignCompleteIffSparse(h: Heap, t: Task, rc: int, readOk: bool, stored: u64, env: Env)
    requires Inv(h) && IndexComplete(h)
    ensures var h' := MemalignReturn(h, t, rc, readOk, stored, env); IndexComplete(h') <==> Sparse(h'.allocs)
  {
    var h1 := h.(pending := h.pending - {t.tid}, outPtr := h.outPtr - {t.tid});
    UntouchedIndex(h, h1);
    AllocReturnCompleteIffSparse(h1, t, stored, TakenSize(h, t.tid), AllocMalloc, env);
  }

  lemma StepCompleteIffSparse(h: Heap, p: Probe)
    requires Inv(h) && IndexComplete(h)
    ensures IndexComplete(Apply(h, p)) <==> Sparse(Apply(h, p).allocs)
  {
    match p
    case Enter(t, c) => UntouchedIndex(h, Remember(h, t, c));
    case AllocExit(t, ret, family, env) =>
      AllocReturnCompleteIffSparse(h.(pending := h.pending - {t.tid}), t, ret, TakenSize(h, t.tid), family, env);
    case ReallocExit(t, ret, env) => ReallocReturnCompleteIffSparse(h, t, ret, env);
    case MemalignExit(t, rc, readOk, stored, env) => MemalignCompleteIffSparse(h, t, rc, readOk, stored, env);
    case Release(t, ptr, d, env) => ReleaseKeepsBoth(h, t, ptr, d, env);
    case Outside(op) => UntouchedIndex(h, h.(chan := ApplyOp(h.chan, op)));
  }

  /** The index is complete after the run and after each of its prefixes. */
  ghost predicate AlwaysComplete(ps: seq<Probe>) {
    IndexComplete(Run(EMPTY_HEAP, ps)) && (ps != [] ==> AlwaysComplete(ps[..|ps| - 1]))
  }

  /** No page is ever shared by more than four live allocations of a process. */
  ghost predicate AlwaysSparse(ps: seq<Probe>) {
    Sparse(Run(EMPTY_HEAP, ps).allocs) && (ps != [] ==> AlwaysSparse(ps[..|ps| - 1]))
  }

  /** Completeness throughout a run is sparsity throughout the run, for every run. */
  lemma {:induction false} CompleteIffSparse(ps: seq<Probe>)
    ensures AlwaysComplete(ps) <==> AlwaysSparse(ps)
  {
    if ps == [] {
      assert IndexComplete(EMPTY_HEAP);
      CompleteImpliesSparse(EMPTY_HEAP.allocs, EMPTY_HEAP.ranges);
    } else {
      var before := ps[..|ps| - 1];
      CompleteIffSparse(before);
      if AlwaysComplete(before) {
        LastStep(ps);
      }
    }
  }

  lemma LastStep(ps: seq<Probe>)
    requires ps != [] && IndexComplete(Run(EMPTY_HEAP, ps[..|ps| - 1]))
    ensures IndexComplete(Run(EMPTY_HEAP, ps)) <==> Sparse(Run(EMPTY_HEAP, ps).allocs)
  {
    ReachableInv(ps[..|ps| - 1]);
    StepCompleteIffSparse(Run(EMPTY_HEAP, ps[..|ps| - 1]), ps[|ps| - 1]);
  }

  // ----- a run of allocator calls -----

  function MallocCall(t: Task, addr: u64, size: u64): seq<Probe> {
    [Enter(t, Sized(size)), AllocExit(t, addr, AllocMalloc, OK)]
  }

  lemma TrackedReturn(h: Heap, t: Task, addr: u64, size: u64)
    requires addr != 0 && AllocKey(t.pid, addr) !in h.allocs
    ensures var key, info := AllocKey(t.pid, addr), AllocInfo(size, 0, AllocMalloc, DeallocUnknown);
      var h' := AllocReturn(h, t, addr, Some(size), AllocMalloc, OK);
      h'.allocs == h.allocs[key := info] && h'.ranges == Indexed(h.ranges, key, info)
  {
  }

  lemma MallocApplies(h: Heap, t: Task, addr: u64, size: u64)
    requires addr != 0 && size < U64_MAX - 1 && AllocKey(t.pid, addr) !in h.allocs
    ensures var key, info := AllocKey(t.pid, addr), AllocInfo(size, 0, AllocMalloc, DeallocUnknown);
      var h' := Apply(Remember(h, t, Sized(size)), AllocExit(t, addr, AllocMalloc, OK));
      h'.allocs == h.allocs[key := info] && h'.ranges == Indexed(h.ranges, key, info)
  {
    var h1 := Remember(h, t, Sized(size));
    assert TakenSize(h1, t.tid) == Some(size);
    TrackedReturn(h1.(pending := h1.pending - {t.tid}), t, addr, size);
  }

  lemma MallocTracks(ps: seq<Probe>, t: Task, addr: u64, size: u64)
    requires addr != 0 && size < U64_MAX - 1 && AllocKey(t.pid, addr) !in Run(EMPTY_HEAP, ps).allocs
    ensures var key, info := AllocKey(t.pid, addr), AllocInfo(size, 0, AllocMalloc, DeallocUnknown);
      var h, h' := Run(EMPTY_HEAP, ps), Run(EMPTY_HEAP, ps + MallocCall(t, addr, size));
      h'.allocs == h.allocs[key := info] && h'.ranges == Indexed(h.ranges, key, info)
  {
    var enter, exit := Enter(t, Sized(size)), AllocExit(t, addr, AllocMalloc, OK);
    RunAppend(ps, enter);
    RunAppend(ps + [enter], exit);
    assert ps + [enter] + [exit] == ps + MallocCall(t, addr, size);
    MallocApplies(Run(EMPTY_HEAP, ps), t, addr, size);
  }

  // ----- eviction -----

  /** Evicting a freed entry or a whole bucket harms nothing but completeness. Evicting a
      live entry leaves the index sound exactly when no bucket still names it. */
  lemma EvictionSoundIff(h: Heap, key: AllocKey, page: RangeKey)
    requires Inv(h)
    ensures Inv(h.(freed := h.freed - {key})) && Inv(h.(ranges := h.ranges - {page}))
    ensures key in h.allocs ==> (Inv(h.(allocs := h.allocs - {key})) <==> Unheld(h.ranges, key))
  {
    if key in h.allocs {
      var allocs' := h.allocs - {key};
      if Unheld(h.ranges, key) {
        forall k | k in h.ranges ensures SoundBucket(allocs', k, h.ranges[k]) {
          assert SoundBucket(h.allocs, k, h.ranges[k]);
          forall i | 0 <= i < RANGE_SLOTS && h.ranges[k][i].base != 0 ensures SlotLive(allocs', k, h.ranges[k][i]) {
            assert SlotLive(h.allocs, k, h.ranges[k][i]);
            assert AllocKey(k.pid, h.ranges[k][i].base) != key;
          }
        }
      } else if Inv(h.(allocs := allocs')) {
        DeadIsUnheld(allocs', h.ranges, key);
      }
    }
  }

  // ----- lookup -----

  predicate Covers(base: u64, size: u64, addr: u64) {
    base != 0 && base <= addr < base + size
  }

  function FirstCover(b: Bucket, addr: u64, i: nat): (s: Option<Slot>)
    requires i <= RANGE_SLOTS
    ensures s.None? <==> forall j :: i <= j < RANGE_SLOTS ==> !Covers(b[j].base, b[j].size, addr)
    ensures s.Some? ==> exists j :: i <= j < RANGE_SLOTS && b[j] == s.value && Covers(b[j].base, b[j].size, addr)
    decreases RANGE_SLOTS - i
  {
    if i == RANGE_SLOTS then None
    else if Covers(b[i].base, b[i].size, addr) then Some(b[i])
    else FirstCover(b, addr, i + 1)
  }

  function Lookup(ranges: Ranges, pid: u32, addr: u64): Option<Slot> {
    var k := RangeKey(pid, addr / PAGE_SIZE);
    if k in ranges then FirstCover(ranges[k], addr, 0) else None
  }

  method LookupAllocRange(ranges: Ranges, pid: u32, addr: u64) returns (slot: Option<Slot>)
    ensures slot == Lookup(ranges, pid, addr)
  {
    var k := RangeKey(pid, addr / PAGE_SIZE);
    if k !in ranges {
      return None;
    }
    var bucket := ranges[k];
    for i := 0 to RANGE_SLOTS
      invariant FirstCover(bucket, addr, 0) == FirstCover(bucket, addr, i)
    {
      var s := bucket[i];
      if s.base == 0 || s.size == 0 || addr < s.base {
        continue;
      }
      var offset := Wrap64(addr - s.base);
      if offset < s.size {
        return Some(s);
      }
    }
    return None;
  }

  ghost predicate LiveCover(h: Heap, key: AllocKey, addr: u64) {
    key in h.allocs && Covers(key.addr, h.allocs[key].size, addr)
  }

  /** Whatever the lookup returns is a live allocation of that process around the address. */
  lemma LookupIsLive(h: Heap, pid: u32, addr: u64)
    requires Inv(h) && Lookup(h.ranges, pid, addr).Some?
    ensures var s := Lookup(h.ranges, pid, addr).value;
      LiveCover(h, AllocKey(pid, s.base), addr) && s == SlotFor(s.base, h.allocs[AllocKey(pid, s.base)])
  {
    var k := RangeKey(pid, addr / PAGE_SIZE);
    var s := Lookup(h.ranges, pid, addr).value;
    var i :| 0 <= i < RANGE_SLOTS && h.ranges[k][i] == s && Covers(s.base, s.size, addr);
    assert SlotLive(h.allocs, k, s);
  }

  lemma IndexedIsFound(h: Heap, key: AllocKey, addr: u64)
    requires Inv(h) && IndexComplete(h) && LiveCover(h, key, addr)
    requires OnPage(key.addr, h.allocs[key].size, addr / PAGE_SIZE)
    ensures Lookup(h.ranges, key.pid, addr).Some?
  {
    var k := RangeKey(key.pid, addr / PAGE_SIZE);
    assert Found(h.allocs, h.ranges, key, k.page);
    var i :| 0 <= i < RANGE_SLOTS && h.ranges[k][i].base == key.addr;
    assert SlotLive(h.allocs, k, h.ranges[k][i]);
  }

  /** With a complete index and live intervals disjoint at the address, the lookup returns
      the allocation a scan finds, exactly when the address is on an indexed page of it. */
  lemma LookupMatchesScan(h: Heap, key: AllocKey, addr: u64)
    requires Inv(h) && IndexComplete(h) && LiveCover(h, key, addr)
    requires forall other :: LiveCover(h, other, addr) && other.pid == key.pid ==> other == key
    ensures Lookup(h.ranges, key.pid, addr) ==
      if OnPage(key.addr, h.allocs[key].size, addr / PAGE_SIZE) then Some(SlotFor(key.addr, h.allocs[key])) else None
  {
    var k := RangeKey(key.pid, addr / PAGE_SIZE);
    if OnPage(key.addr, h.allocs[key].size, k.page) {
      IndexedIsFound(h, key, addr);
    }
    if Lookup(h.ranges, key.pid, addr).Some? {
      LookupIsLive(h, key.pid, addr);
      var s := Lookup(h.ranges, key.pid, addr).value;
      assert AllocKey(key.pid, s.base) == key;
      var i :| 0 <= i < RANGE_SLOTS && h.ranges[k][i] == s;
      assert SlotLive(h.allocs, k, s);
    }
  }

  /** The 64-page cut and the address wrap are the only blind spots of an allocation. */
  lemma IndexedPagesCoverAllocation(addr: u64, size: u64, a: u64)
    requires Covers(addr, size, a)
    ensures OnPage(addr, size, a / 4096) <==>
      if addr + size > 0x1_0000_0000_0000_0000 then a / 4096 == addr / 4096 else a / 4096 < addr / 4096 + 64
  {
    assert a <= addr + size - 1 && a / PAGE_SIZE <= (addr + size - 1) / PAGE_SIZE;
  }

  // ----- a dense page loses an allocation -----

  /** Five 16-byte allocations side by side on one page. */
  function FiveMallocs(t: Task): seq<Probe> {
    MallocCall(t, 0x1000, 16) + MallocCall(t, 0x1010, 16) + MallocCall(t, 0x1020, 16) + MallocCall(t, 0x1030, 16)
    + MallocCall(t, 0x1040, 16)
  }

  function SmallSlot(addr: u64): Slot {
    Slot(addr, 16, 0, AllocMalloc)
  }

  /** The run made small allocations at exactly these addresses, and page 1 has this bucket. */
  ghost predicate PageOne(ps: seq<Probe>, pid: u32, addrs: set<u64>, bucket: Bucket) {
    var h := Run(EMPTY_HEAP, ps);
    && (forall a: u64 :: AllocKey(pid, a) in h.allocs <==> a in addrs)
    && (forall a: u64 :: a in addrs ==> h.allocs[AllocKey(pid, a)].size == 16)
    && BucketAt(h.ranges, RangeKey(pid, 1)) == bucket
  }

  lemma OneMoreOnPage(ps: seq<Probe>, t: Task, addrs: set<u64>, bucket: Bucket, addr: u64,
                      addrs': set<u64>, bucket': Bucket)
    requires PageOne(ps, t.pid, addrs, bucket) && addr !in addrs && 0x1000 <= addr <= 0x1FF0
    requires addrs' == addrs + {addr} && bucket' == bucket[Target(bucket, addr) := SmallSlot(addr)]
    ensures PageOne(ps + MallocCall(t, addr, 16), t.pid, addrs', bucket')
  {
    MallocTracks(ps, t, addr, 16);
    var info := AllocInfo(16, 0, AllocMalloc, DeallocUnknown);
    assert RangeKey(t.pid, 1) in Span(AllocKey(t.pid, addr), info);
  }

  lemma TwoOnPage(t: Task)
    ensures PageOne(MallocCall(t, 0x1000, 16) + MallocCall(t, 0x1010, 16), t.pid, {0x1000, 0x1010},
                    [SmallSlot(0x1000), SmallSlot(0x1010), ZERO_SLOT, ZERO_SLOT])
  {
    var b1 := [SmallSlot(0x1000), ZERO_SLOT, ZERO_SLOT, ZERO_SLOT];
    OneMoreOnPage([], t, {}, ZERO_BUCKET, 0x1000, {0x1000}, b1);
    assert [] + MallocCall(t, 0x1000, 16) == MallocCall(t, 0x1000, 16);
    OneMoreOnPage(MallocCall(t, 0x1000, 16), t, {0x1000}, b1, 0x1010, {0x1000, 0x1010},
                  [SmallSlot(0x1000), SmallSlot(0x1010), ZERO_SLOT, ZERO_SLOT]);
  }

  lemma FourOnPage(t: Task)
    ensures PageOne(MallocCall(t, 0x1000, 16) + MallocCall(t, 0x1010, 16) + MallocCall(t, 0x1020, 16)
                    + MallocCall(t, 0x1030, 16), t.pid, {0x1000, 0x1010, 0x1020, 0x1030},
                    [SmallSlot(0x1000), SmallSlot(0x1010), SmallSlot(0x1020), SmallSlot(0x1030)])
  {
    TwoOnPage(t);
    var p2 := MallocCall(t, 0x1000, 16) + MallocCall(t, 0x1010, 16);
    var b3 := [SmallSlot(0x1000), SmallSlot(0x1010), SmallSlot(0x1020), ZERO_SLOT];
    OneMoreOnPage(p2, t, {0x1000, 0x1010}, [SmallSlot(0x1000), SmallSlot(0x1010), ZERO_SLOT, ZERO_SLOT], 0x1020,
                  {0x1000, 0x1010, 0x1020}, b3);
    OneMoreOnPage(p2 + MallocCall(t, 0x1020, 16), t, {0x1000, 0x1010, 0x1020}, b3, 0x1030,
                  {0x1000, 0x1010, 0x1020, 0x1030},
                  [SmallSlot(0x1000), SmallSlot(0x1010), SmallSlot(0x1020), SmallSlot(0x1030)]);
  }

  /** After them the first allocation is live and in no bucket: the fifth store overwrote its
      slot, and the lookup finds the other four only. */
  lemma DensePageIsIncomplete(t: Task)
    ensures var h := Run(EMPTY_HEAP, FiveMallocs(t));
      && (forall a :: 0x1000 <= a < 0x1050 ==> LiveCover(h, AllocKey(t.pid, a - a % 16), a))
      && (forall a :: 0x1000 <= a < 0x1050 ==> (Lookup(h.ranges, t.pid, a).None? <==> a < 0x1010))
      && !IndexComplete(h)
  {
    FourOnPage(t);
    var p4 := MallocCall(t, 0x1000, 16) + MallocCall(t, 0x1010, 16) + MallocCall(t, 0x1020, 16) + MallocCall(t, 0x1030, 16);
    OneMoreOnPage(p4, t, {0x1000, 0x1010, 0x1020, 0x1030},
                  [SmallSlot(0x1000), SmallSlot(0x1010), SmallSlot(0x1020), SmallSlot(0x1030)], 0x1040,
                  {0x1000, 0x1010, 0x1020, 0x1030, 0x1040},
                  [SmallSlot(0x1040), SmallSlot(0x1010), SmallSlot(0x1020), SmallSlot(0x1030)]);
    FourRemain(FiveMallocs(t), t.pid);
  }

  lemma FourRemain(ps: seq<Probe>, pid: u32)
    requires PageOne(ps, pid, {0x1000, 0x1010, 0x1020, 0x1030, 0x1040},
                     [SmallSlot(0x1040), SmallSlot(0x1010), SmallSlot(0x1020), SmallSlot(0x1030)])
    ensures var h := Run(EMPTY_HEAP, ps);
      && (forall a :: 0x1000 <= a < 0x1050 ==> LiveCover(h, AllocKey(pid, a - a % 16), a))
      && (forall a :: 0x1000 <= a < 0x1050 ==> (Lookup(h.ranges, pid, a).None? <==> a < 0x1010))
      && !IndexComplete(h)
  {
    var h := Run(EMPTY_HEAP, ps);
    var b := [SmallSlot(0x1040), SmallSlot(0x1010), SmallSlot(0x1020), SmallSlot(0x1030)];
    forall a | 0x1000 <= a < 0x1050
      ensures LiveCover(h, AllocKey(pid, a - a % 16), a) && (Lookup(h.ranges, pid, a).None? <==> a < 0x1010)
    {
      assert a - a % 16 in {0x1000, 0x1010, 0x1020, 0x1030, 0x1040};
      assert Lookup(h.ranges, pid, a) == FirstCover(b, a, 0);
      assert b[0].base == 0x1040 && b[1].base == 0x1010 && b[2].base == 0x1020 && b[3].base == 0x1030;
      assert a >= 0x1010 ==> exists j :: 0 <= j < RANGE_SLOTS && Covers(b[j].base, b[j].size, a);
    }
    ReachableInv(ps);
    if IndexComplete(h) {
      IndexedIsFound(h, AllocKey(pid, 0x1000), 0x1008);
    }
  }
}
