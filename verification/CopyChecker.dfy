/** The bulk-write probes, from the destination pointer to the capacity test that the
    agent applies to the event. */
module CopyChecker {
  import opened Words
  import opened RangeIndex
  import opened Sentinel
  import opened HeapTracker
  import opened IndexRuns
  import HeapProbes

  /** The agent's test on a bulk-write event: known capacity, and a length beyond it. */
  predicate OverflowReported(e: Event) {
    e.allocSize != 0 && e.allocOffset < e.allocSize && e.len > e.allocSize - e.allocOffset
  }

  /** The allocation a write is attributed to: an exact base first, then the index. */
  function Resolve(h: Heap, pid: u32, dst: u64): Option<Slot> {
    var key := AllocKey(pid, dst);
    if key in h.allocs then Some(SlotFor(dst, h.allocs[key])) else Lookup(h.ranges, pid, dst)
  }

  function WriteEvent(h: Heap, t: Task, dst: u64, len: u64, etype: EventType, api: int, stack: int): Event {
    var e := BlankEvent(t).(
      etype := etype, addr := dst, stackId := stack, len := Saturate32(len), allocBase := dst, errno := api);
    match Resolve(h, t.pid, dst)
    case None => e
    case Some(s) =>
      e.(allocSize := Saturate32(s.size), allocOffset := Saturate32(Wrap64(dst - s.base)),
         allocBase := s.base, siteId := SiteOf(s.stack))
  }

  function HeapWrite(h: Heap, t: Task, dst: u64, len: u64, etype: EventType, api: int, env: Env): Heap {
    var ch := ApplyOp(h.chan, Create(t.pid, env.stateOk));
    if dst == 0 then h
    else if !Armed(ch, t.pid) then h.(chan := ch)
    else h.(chan := ApplyOp(ch, Post(t, env.ringOk, WriteEvent(h, t, dst, len, etype, api, env.stack))))
  }

  class Checker {
    const heap: HeapProbes.Tracker
    var hits: u64

    constructor (heap: HeapProbes.Tracker)
      ensures this.heap == heap && hits == 0
    {
      this.heap := heap;
      hits := 0;
    }

    method RecordHeapWrite(t: Task, dst: u64, len: u64, etype: EventType, api: int, env: Env)
      requires heap.Valid()
      modifies this, heap.chan
      ensures heap.Valid() && heap.View() == HeapWrite(old(heap.View()), t, dst, len, etype, api, env)
      ensures hits == Wrap64(old(hits) + 1)
    {
      hits := Wrap64(hits as int + 1);
      if dst == 0 {
        return;
      }
      var evt := DescribeWrite(t, dst, len, etype, api, env.stack);
      PostWrite(t, env, evt);
      heap.OthersKeepValid();
    }

    method PostWrite(t: Task, env: Env, evt: Event)
      requires heap.chan.Valid()
      modifies heap.chan
      ensures heap.chan.Valid() && old(heap.chan.log) <= heap.chan.log
      ensures var ch := ApplyOp(old(heap.chan.View()), Create(t.pid, env.stateOk));
        heap.chan.View() == if Armed(ch, t.pid) then ApplyOp(ch, Post(t, env.ringOk, evt)) else ch
    {
      var ok := heap.chan.GetState(t.pid, env.stateOk);
      if !ok {
        return;
      }
      if !heap.chan.states[t.pid].armed {
        return;
      }
      var _ := heap.chan.Emit(t, env.ringOk, evt);
    }

    method DescribeWrite(t: Task, dst: u64, len: u64, etype: EventType, api: int, stack: int) returns (evt: Event)
      ensures evt == WriteEvent(heap.View(), t, dst, len, etype, api, stack)
    {
      var key := AllocKey(t.pid, dst);
      var allocBase: u64, allocSize: u64, allocOffset: u64, allocStack: int := dst, 0, 0, -1;
      if key in heap.allocs {
        allocSize := heap.allocs[key].size;
        allocStack := heap.allocs[key].stack;
      } else {
        var range := LookupAllocRange(heap.ranges, t.pid, dst);
        if range.Some? {
          allocBase := range.value.base;
          allocSize := range.value.size;
          allocOffset := Wrap64(dst as int - allocBase);
          allocStack := range.value.stack;
        }
      }
      evt := BlankEvent(t).(etype := etype, addr := dst, stackId := stack, len := Saturate32(len));
      evt := evt.(allocSize := Saturate32(allocSize), allocOffset := Saturate32(allocOffset), allocBase := allocBase);
      evt := evt.(errno := api, siteId := if allocStack >= 0 then SiteOf(allocStack) else 0);
    }
  }

  lemma WriteKeepsInv(h: Heap, t: Task, dst: u64, len: u64, etype: EventType, api: int, env: Env)
    requires Inv(h)
    ensures Inv(HeapWrite(h, t, dst, len, etype, api, env))
  {
    ChannelOpKeepsInv(h, Create(t.pid, env.stateOk));
    ChannelOpKeepsInv(h.(chan := ApplyOp(h.chan, Create(t.pid, env.stateOk))),
                      Post(t, env.ringOk, WriteEvent(h, t, dst, len, etype, api, env.stack)));
  }

  // ----- the verdict -----

  predicate Saturated(e: Event, size: u64, offset: u64, len: u64) {
    e.allocSize == Saturate32(size) && e.allocOffset == Saturate32(offset) && e.len == Saturate32(len)
  }

  /** What the 32-bit test decides on 64-bit quantities. */
  lemma OverflowVerdictExact(e: Event, size: u64, offset: u64, len: u64)
    requires Saturated(e, size, offset, len)
    ensures OverflowReported(e) <==>
      var cap := Min(size, U32_MAX);
      offset < cap && offset + len > cap && (offset > 0 || size < U32_MAX)
  {
  }

  /** Where the saturated test is right: for every size below 2^32-1, and from there on
      for an interior write at an offset below 2^32-1 unless it ends within the allocation
      but past 2^32-1, and for any other write only if it does not overrun. */
  lemma OverflowVerdictCorrectIff(e: Event, size: u64, offset: u64, len: u64)
    requires Saturated(e, size, offset, len) && offset < size
    ensures (OverflowReported(e) <==> offset + len > size) <==>
      || size < U32_MAX
      || (if 0 < offset < U32_MAX then offset + len <= U32_MAX || offset + len > size else offset + len <= size)
  {
    OverflowVerdictExact(e, size, offset, len);
  }

  /** A write at the base of an allocation is never falsely reported, whatever the size. */
  lemma BaseWriteNeverFalse(e: Event, size: u64, len: u64)
    requires Saturated(e, size, 0, len) && OverflowReported(e)
    ensures len > size
  {
    OverflowVerdictExact(e, size, 0, len);
  }

  // ----- end to end -----

  /** The test on the event of a write that was attributed to a slot around it. */
  lemma AttributedVerdict(h: Heap, t: Task, dst: u64, len: u64, etype: EventType, api: int, stack: int, s: Slot)
    requires Resolve(h, t.pid, dst) == Some(s) && s.base <= dst
    ensures Saturated(WriteEvent(h, t, dst, len, etype, api, stack), s.size, dst - s.base, len)
    ensures s.size < U32_MAX && dst - s.base < s.size ==>
      (OverflowReported(WriteEvent(h, t, dst, len, etype, api, stack)) <==> dst - s.base + len > s.size)
  {
    OverflowVerdictExact(WriteEvent(h, t, dst, len, etype, api, stack), s.size, dst - s.base, len);
  }

  lemma ResolvedIsLive(h: Heap, pid: u32, dst: u64)
    requires Inv(h) && Resolve(h, pid, dst).Some?
    ensures var s := Resolve(h, pid, dst).value;
      && AllocKey(pid, s.base) in h.allocs && s == SlotFor(s.base, h.allocs[AllocKey(pid, s.base)])
      && s.base <= dst && (s.base == dst || LiveCover(h, AllocKey(pid, s.base), dst))
  {
    if AllocKey(pid, dst) !in h.allocs {
      LookupIsLive(h, pid, dst);
    }
  }

  /** A reported overflow names a live allocation around the destination, and, when its
      size fits below 2^32-1 or the write is at its base, the write runs past its end. */
  lemma ReportedOverflowIsReal(h: Heap, t: Task, dst: u64, len: u64, etype: EventType, api: int, stack: int)
    requires Inv(h) && OverflowReported(WriteEvent(h, t, dst, len, etype, api, stack))
    ensures var e := WriteEvent(h, t, dst, len, etype, api, stack);
      var key := AllocKey(t.pid, e.allocBase);
      && LiveCover(h, key, dst)
      && e.siteId == SiteOf(h.allocs[key].stack)
      && (h.allocs[key].size < U32_MAX || dst == key.addr ==> dst - key.addr + len > h.allocs[key].size)
  {
    ResolvedIsLive(h, t.pid, dst);
    var s := Resolve(h, t.pid, dst).value;
    var e := WriteEvent(h, t, dst, len, etype, api, stack);
    AttributedVerdict(h, t, dst, len, etype, api, stack, s);
    OverflowVerdictExact(e, s.size, dst - s.base, len);
  }

  /** `key` is the one live allocation the write can be attributed to, on a page it is indexed on. */
  ghost predicate Attributable(h: Heap, key: AllocKey, dst: u64) {
    && LiveCover(h, key, dst)
    && (forall other :: LiveCover(h, other, dst) && other.pid == key.pid ==> other == key)
    && (AllocKey(key.pid, dst) in h.allocs ==> dst == key.addr)
    && OnPage(key.addr, h.allocs[key].size, dst / PAGE_SIZE)
  }

  lemma AttributableResolves(h: Heap, key: AllocKey, dst: u64)
    requires Inv(h) && IndexComplete(h) && Attributable(h, key, dst)
    ensures Resolve(h, key.pid, dst) == Some(SlotFor(key.addr, h.allocs[key]))
  {
    LookupMatchesScan(h, key, dst);
  }

  /** With a complete index, a write into an indexed page of exactly one live allocation is
      reported exactly when it runs past the end of that allocation. */
  lemma OverrunReportedIff(h: Heap, t: Task, key: AllocKey, dst: u64, len: u64, etype: EventType, api: int, env: Env)
    requires Inv(h) && IndexComplete(h) && env.ringOk
    requires key.pid == t.pid && Attributable(h, key, dst) && h.allocs[key].size < U32_MAX
    ensures var ring := HeapWrite(h, t, dst, len, etype, api, env).chan.ring;
      && |ring| == |h.chan.ring| + 1
      && (OverflowReported(ring[|h.chan.ring|]) <==> dst - key.addr + len > h.allocs[key].size)
  {
    AttributableResolves(h, key, dst);
    AttributedVerdict(h, t, dst, len, etype, api, env.stack, SlotFor(key.addr, h.allocs[key]));
    WritePosts(h, t, dst, len, etype, api, env);
  }

  lemma WritePosts(h: Heap, t: Task, dst: u64, len: u64, etype: EventType, api: int, env: Env)
    requires dst != 0 && env.ringOk && Armed(h.chan, t.pid)
    ensures var ring := HeapWrite(h, t, dst, len, etype, api, env).chan.ring;
      && |ring| == |h.chan.ring| + 1
      && (OverflowReported(ring[|h.chan.ring|]) <==>
          OverflowReported(WriteEvent(h, t, dst, len, etype, api, env.stack)))
  {
    PostAppends(h.chan, t, env.ringOk, WriteEvent(h, t, dst, len, etype, api, env.stack));
  }

  // ----- writes the saturated test gets wrong -----

  lemma OneAllocation(t: Task, size: u64)
    requires 0 < size < U64_MAX - 1
    ensures var h := Run(EMPTY_HEAP, MallocCall(t, 0x1000, size));
      && h.allocs == map[AllocKey(t.pid, 0x1000) := AllocInfo(size, 0, AllocMalloc, DeallocUnknown)]
      && BucketAt(h.ranges, RangeKey(t.pid, 1)) == ZERO_BUCKET[0 := Slot(0x1000, size, 0, AllocMalloc)]
      && Inv(h) && Armed(h.chan, t.pid)
  {
    var ps := MallocCall(t, 0x1000, size);
    var info := AllocInfo(size, 0, AllocMalloc, DeallocUnknown);
    MallocTracks([], t, 0x1000, size);
    assert [] + ps == ps;
    ReachableInv(ps);
    assert RangeKey(t.pid, 1) in Span(AllocKey(t.pid, 0x1000), info);
  }

  /** The last event of the ring after a memcpy, with every kernel answer favourable. */
  function CopyEvent(h: Heap, t: Task, dst: u64, len: u64): Option<Event> {
    var ring := HeapWrite(h, t, dst, len, Memcpy, 0, OK).chan.ring;
    if ring == [] then None else Some(ring[|ring| - 1])
  }

  /** In an 8 GB allocation a copy of 2^32-1 bytes to its second byte fits and is reported. */
  lemma HugeCopyFalselyReported(t: Task)
    ensures var h := Run(EMPTY_HEAP, MallocCall(t, 0x1000, 0x2_0000_0000));
      var e := CopyEvent(h, t, 0x1001, 0xFFFF_FFFF);
      && e.Some? && OverflowReported(e.value)
      && LiveCover(h, AllocKey(t.pid, 0x1000), 0x1001)
      && 1 + 0xFFFF_FFFF <= h.allocs[AllocKey(t.pid, 0x1000)].size
  {
    var h := Run(EMPTY_HEAP, MallocCall(t, 0x1000, 0x2_0000_0000));
    OneAllocation(t, 0x2_0000_0000);
    assert Lookup(h.ranges, t.pid, 0x1001) == Some(BucketAt(h.ranges, RangeKey(t.pid, 1))[0]);
    WritePosts(h, t, 0x1001, 0xFFFF_FFFF, Memcpy, 0, OK);
  }

  /** In a 4 GB allocation a copy of one byte more to its base overruns it and is missed. */
  lemma HugeOverrunMissed(t: Task)
    ensures var h := Run(EMPTY_HEAP, MallocCall(t, 0x1000, 0x1_0000_0000));
      var e := CopyEvent(h, t, 0x1000, 0x1_0000_0001);
      && e.Some? && !OverflowReported(e.value)
      && LiveCover(h, AllocKey(t.pid, 0x1000), 0x1000)
      && 0x1_0000_0001 > h.allocs[AllocKey(t.pid, 0x1000)].size
  {
    var h := Run(EMPTY_HEAP, MallocCall(t, 0x1000, 0x1_0000_0000));
    OneAllocation(t, 0x1_0000_0000);
    WritePosts(h, t, 0x1000, 0x1_0000_0001, Memcpy, 0, OK);
  }
}
