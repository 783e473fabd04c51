/** The findings of the agent in full, from what the target did: every field of every key, and
    the verdicts as numbers. */
module Findings {
  import opened Words
  import opened RangeIndex
  import opened Sentinel
  import opened HeapTracker
  import opened FreeHistory
  import opened IndexRuns
  import opened CopyChecker
  import opened FdTracker
  import opened Descriptors
  import opened DescriptorRuns
  import opened Agent
  import opened EndToEnd

  /** Stack ids travel shifted by one, with zero for none. */
  predicate IsSite(site: int, stack: int) {
    site == if stack < 0 then 0 else (stack + 1) % 0x1_0000_0000
  }

  // ----- releases -----

  /** The release that belongs to an allocation; any release fits one of unknown family. */
  predicate Fits(family: AllocFamily, d: DeallocFamily) {
    || (family == AllocMalloc && d == DeallocFree)
    || (family == AllocNew && d == DeallocDelete)
    || (family == AllocNewArray && d == DeallocDeleteArray)
    || family == AllocUnknown
  }

  predicate OneMore(ring: seq<Event>, ring': seq<Event>) {
    |ring'| == |ring| + 1 && ring'[..|ring|] == ring
  }

  lemma LiveFate(xs: seq<Touch>, i: nat)
    requires LiveSince(xs, i)
    ensures FateOf(xs) == Live(xs[i].info)
  {
    var i0, j0 := FateExplained(xs);
    assert Explains(xs, Live(xs[i].info), i, 0);
    ExplanationsAgree(xs, FateOf(xs), i0, j0, Live(xs[i].info), i, 0);
  }

  lemma EndedFate(xs: seq<Touch>, i: nat, j: nat)
    requires EndedAt(xs, i, j)
    ensures FateOf(xs) == if CppRelease(EndingFamily(xs[j])) && StorageReturned(xs, j) then Unknown
                          else Gone(xs[i].info, EndingFamily(xs[j]))
  {
    var f := if CppRelease(EndingFamily(xs[j])) && StorageReturned(xs, j) then Unknown
             else Gone(xs[i].info, EndingFamily(xs[j]));
    var i0, j0 := FateExplained(xs);
    assert Explains(xs, f, i, j);
    ExplanationsAgree(xs, FateOf(xs), i0, j0, f, i, j);
  }

  lemma NeverAllocatedFate(xs: seq<Touch>)
    requires forall k :: 0 <= k < |xs| ==> !xs[k].Allocated?
    ensures FateOf(xs).Unknown?
  {
    var i0, j0 := FateExplained(xs);
    assert Explains(xs, Unknown, 0, 0);
    ExplanationsAgree(xs, FateOf(xs), i0, j0, Unknown, 0, 0);
  }

  /** A posted release of a pointer with this fate. */
  lemma ReleaseArrives(ps: seq<Probe>, t: Task, ptr: u64, d: DeallocFamily, env: Env, log: seq<FindingKey>, fate: Fate)
    requires ptr != 0 && env.ringOk && env.stateOk
    requires fate == FateOf(History(ps, AllocKey(t.pid, ptr))) && FateVerdict(fate, d).Some?
    ensures var h := Run(EMPTY_HEAP, ps);
      var ring, ring' := h.chan.ring, Apply(h, Release(t, ptr, d, env)).chan.ring;
      && OneMore(ring, ring')
      && var e := ring'[|ring|];
         && e.etype == Free && e.errno == StatusCode(FateVerdict(fate, d).value)
         && e.pid == t.pid && e.addr == ptr && e.stackId == env.stack && e.allocOffset == 0
         && Describes(e, fate) && Candidate(log, e) == ReleaseFinding(log, e, fate, d)
  {
    ReleaseBecomesFinding(ps, t, ptr, d, env, log);
    ReleasePostsHistoryVerdict(ps, t, ptr, d, env);
  }

  lemma LiveEvent(log: seq<FindingKey>, e: Event, info: AllocInfo, d: DeallocFamily)
    requires DescribesInfo(e, info) && Candidate(log, e) == ReleaseFinding(log, e, Live(info), d)
    requires e.errno == StatusCode(FateVerdict(Live(info), d).value) && e.allocOffset == 0
    ensures e.errno == (if Fits(info.family, d) then 0 else 3)
    ensures if Fits(info.family, d) then Candidate(log, e).None?
      else
        && IsSite(e.siteId, info.stack)
        && Candidate(log, e) == Some(FindingKey(AllocatorMismatch, 3, e.pid, e.siteId, e.stackId, e.addr,
             match info.family case AllocUnknown => 0 case AllocMalloc => 1 case AllocNew => 2 case AllocNewArray => 3,
             Min(info.size, 0xFFFF_FFFF), 0))
  {
  }

  lemma GoneEvent(log: seq<FindingKey>, e: Event, info: AllocInfo, d0: DeallocFamily, d: DeallocFamily)
    requires DescribesInfo(e, info) && Candidate(log, e) == ReleaseFinding(log, e, Gone(info, d0), d)
    requires d0 !in {DeallocDelete, DeallocDeleteArray} && e.allocOffset == 0
    ensures Candidate(log, e).None? <==>
      || Agent.Remembered(log, AllocatorMismatch, e.pid, e.addr)
      || (d == DeallocFree && info.family in {AllocNew, AllocNewArray})
    ensures Candidate(log, e).Some? ==>
      var k := Candidate(log, e).value;
      && k.kind == DoubleFree && k.status == 1 && k.pid == e.pid && k.addr == e.addr && IsSite(k.siteId, info.stack)
      && k.stackId == e.stackId && k.allocSize == Min(info.size, 0xFFFF_FFFF)
  {
  }

  /** In every run, the release of a pointer live since touch `i` of its history posts status 0
      exactly if it fits the allocation and 3 otherwise. The agent reports nothing for the
      first, and for the second an allocator mismatch with the allocation's site, size and
      family and the stack of the release. */
  lemma LiveReleaseReported(ps: seq<Probe>, t: Task, ptr: u64, d: DeallocFamily, env: Env, log: seq<FindingKey>, i: nat)
    requires ptr != 0 && env.ringOk && env.stateOk && LiveSince(History(ps, AllocKey(t.pid, ptr)), i)
    ensures var info := History(ps, AllocKey(t.pid, ptr))[i].info;
      var ring, ring' := Run(EMPTY_HEAP, ps).chan.ring, Apply(Run(EMPTY_HEAP, ps), Release(t, ptr, d, env)).chan.ring;
      && OneMore(ring, ring')
      && var e := ring'[|ring|];
         && e.etype == Free && e.errno == (if Fits(info.family, d) then 0 else 3)
         && if Fits(info.family, d) then Candidate(log, e).None?
            else
              && Candidate(log, e).Some?
              && var k := Candidate(log, e).value;
                 && k.kind == AllocatorMismatch && k.status == 3 && k.pid == t.pid && k.addr == ptr
                 && IsSite(k.siteId, info.stack) && k.stackId == env.stack
                 && k.allocSize == Min(info.size, 0xFFFF_FFFF) && k.allocOffset == 0
                 && k.len == (match info.family case AllocMalloc => 1 case AllocNew => 2 case AllocNewArray => 3)
  {
    var xs, h := History(ps, AllocKey(t.pid, ptr)), Run(EMPTY_HEAP, ps);
    LiveFate(xs, i);
    ReleaseArrives(ps, t, ptr, d, env, log, Live(xs[i].info));
    LiveEvent(log, Apply(h, Release(t, ptr, d, env)).chan.ring[|h.chan.ring|], xs[i].info, d);
  }

  /** A pointer given up by free or realloc posts status 1; the agent reports a double free
      unless a mismatch at the address is remembered or free was called on storage from new. */
  lemma DoubleReleaseReported(ps: seq<Probe>, t: Task, ptr: u64, d: DeallocFamily, env: Env, log: seq<FindingKey>,
                              i: nat, j: nat)
    requires ptr != 0 && env.ringOk && env.stateOk && EndedAt(History(ps, AllocKey(t.pid, ptr)), i, j)
    requires EndingFamily(History(ps, AllocKey(t.pid, ptr))[j]) !in {DeallocDelete, DeallocDeleteArray}
    ensures var info := History(ps, AllocKey(t.pid, ptr))[i].info;
      var ring, ring' := Run(EMPTY_HEAP, ps).chan.ring, Apply(Run(EMPTY_HEAP, ps), Release(t, ptr, d, env)).chan.ring;
      && OneMore(ring, ring')
      && var e := ring'[|ring|];
         && e.etype == Free && e.errno == 1
         && (Candidate(log, e).None? <==>
               || Agent.Remembered(log, AllocatorMismatch, t.pid, ptr)
               || (d == DeallocFree && info.family in {AllocNew, AllocNewArray}))
         && (Candidate(log, e).Some? ==>
               var k := Candidate(log, e).value;
               && k.kind == DoubleFree && k.status == 1 && k.pid == t.pid && k.addr == ptr
               && IsSite(k.siteId, info.stack) && k.stackId == env.stack
               && k.allocSize == Min(info.size, 0xFFFF_FFFF))
  {
    var xs, h := History(ps, AllocKey(t.pid, ptr)), Run(EMPTY_HEAP, ps);
    EndedFate(xs, i, j);
    ReleaseArrives(ps, t, ptr, d, env, log, Gone(xs[i].info, EndingFamily(xs[j])));
    GoneEvent(log, Apply(h, Release(t, ptr, d, env)).chan.ring[|h.chan.ring|], xs[i].info, EndingFamily(xs[j]), d);
  }

  /** A pointer that never was one posts status 2; the agent reports an invalid free that names
      no allocation, unless an overflow at the address is remembered. */
  lemma InvalidReleaseReported(ps: seq<Probe>, t: Task, ptr: u64, d: DeallocFamily, env: Env, log: seq<FindingKey>)
    requires ptr != 0 && env.ringOk && env.stateOk
    requires forall x :: x in History(ps, AllocKey(t.pid, ptr)) ==> !x.Allocated?
    ensures var h := Run(EMPTY_HEAP, ps);
      var ring, ring' := h.chan.ring, Apply(h, Release(t, ptr, d, env)).chan.ring;
      && OneMore(ring, ring')
      && var e := ring'[|ring|];
         && e.etype == Free && e.errno == 2
         && Candidate(log, e) ==
              if Agent.Remembered(log, HeapOverflow, t.pid, ptr) then None
              else Some(FindingKey(InvalidFree, 2, t.pid, 0, env.stack, ptr, 0, 0, 0))
  {
    NeverAllocatedFate(History(ps, AllocKey(t.pid, ptr)));
    ReleaseArrives(ps, t, ptr, d, env, log, Unknown);
  }

  /** After any run: allocate and release at once. Whatever the families, nothing is reported
      exactly when they fit. */
  lemma AllocateAndRelease(ps: seq<Probe>, t: Task, ptr: u64, size: u64, family: AllocFamily, d: DeallocFamily,
                           log: seq<FindingKey>)
    requires ptr != 0
    ensures var h := Run(EMPTY_HEAP, ps + [Enter(t, Sized(size))] + [AllocExit(t, ptr, family, OK)]);
      var ring := Apply(h, Release(t, ptr, d, OK)).chan.ring;
      && OneMore(h.chan.ring, ring)
      && ring[|h.chan.ring|].errno == (if Fits(family, d) then 0 else 3)
      && (Candidate(log, ring[|h.chan.ring|]).None? <==> Fits(family, d))
  {
    var key := AllocKey(t.pid, ptr);
    var s1 := ps + [Enter(t, Sized(size))];
    var s2 := s1 + [AllocExit(t, ptr, family, OK)];
    EnteredAllocation(ps, t, ptr, size, family);
    var xs := History(s2, key);
    LiveReleaseReported(s2, t, ptr, d, OK, log, |xs| - 1);
  }

  lemma EnteredAllocation(ps: seq<Probe>, t: Task, ptr: u64, size: u64, family: AllocFamily)
    requires ptr != 0
    ensures var xs := History(ps + [Enter(t, Sized(size))] + [AllocExit(t, ptr, family, OK)], AllocKey(t.pid, ptr));
      xs != [] && LiveSince(xs, |xs| - 1) && xs[|xs| - 1].info.family == family
  {
    var s1 := ps + [Enter(t, Sized(size))];
    var exit := AllocExit(t, ptr, family, OK);
    RunAppend(ps, Enter(t, Sized(size)));
    assert (s1 + [exit])[..|s1|] == s1;
    assert t.tid in Run(EMPTY_HEAP, s1).pending;
    assert TouchOf(Run(EMPTY_HEAP, s1), exit, AllocKey(t.pid, ptr)).Allocated?;
  }

  // ----- writes -----

  lemma WriteArrives(h: Heap, t: Task, dst: u64, len: u64, etype: EventType, api: int, env: Env)
    requires dst != 0 && env.ringOk && Armed(h.chan, t.pid)
    ensures var ring := HeapWrite(h, t, dst, len, etype, api, env).chan.ring;
      && OneMore(h.chan.ring, ring)
      && Submitted(ring[|h.chan.ring|], t, WriteEvent(h, t, dst, len, etype, api, env.stack))
  {
    PostAppends(h.chan, t, env.ringOk, WriteEvent(h, t, dst, len, etype, api, env.stack));
  }

  /** The event of a write into a live allocation, and the finding it stands for. */
  lemma ResolvedCandidate(h: Heap, t: Task, dst: u64, len: u64, etype: EventType, api: int, stack: int, s: Slot,
                          e: Event, log: seq<FindingKey>)
    requires Resolve(h, t.pid, dst) == Some(s) && s.base <= dst && etype in {Memcpy, Memmove, Memset, Strcpy, Strncpy}
    requires s.size < 0xFFFF_FFFF && (s.base == dst || dst - s.base < s.size)
    requires Submitted(e, t, WriteEvent(h, t, dst, len, etype, api, stack))
    ensures e.etype == etype && e.errno == api && e.addr == dst && e.allocBase == s.base && IsSite(e.siteId, s.stack)
    ensures Candidate(log, e) ==
      if 0 < s.size < dst - s.base + len then
        Some(FindingKey(HeapOverflow, 0, t.pid, e.siteId, stack, dst, Min(len, 0xFFFF_FFFF), s.size, dst - s.base))
      else None
  {
    assert Saturate32(Wrap64(dst - s.base)) == dst - s.base;
    assert OverflowReported(e) <==> 0 < s.size < dst - s.base + len;
  }

  /** With a complete index, an attributable write past the end of its allocation becomes a
      heap overflow with the allocation's site and size, the offset and length of the write
      and the stack of the call. */
  lemma OverrunReported(h: Heap, t: Task, key: AllocKey, dst: u64, len: u64, etype: EventType, api: int, env: Env,
                        log: seq<FindingKey>)
    requires Inv(h) && IndexComplete(h) && env.ringOk && etype in {Memcpy, Memmove, Memset, Strcpy, Strncpy}
    requires key.pid == t.pid && Attributable(h, key, dst) && h.allocs[key].size < 0xFFFF_FFFF
    ensures var ring := HeapWrite(h, t, dst, len, etype, api, env).chan.ring;
      && OneMore(h.chan.ring, ring)
      && var e := ring[|h.chan.ring|];
         && e.etype == etype && e.errno == api && e.addr == dst && e.allocBase == key.addr
         && if dst - key.addr + len <= h.allocs[key].size then Candidate(log, e).None?
            else
              && IsSite(e.siteId, h.allocs[key].stack)
              && Candidate(log, e) == Some(FindingKey(HeapOverflow, 0, t.pid, e.siteId, env.stack, dst,
                                                      Min(len, 0xFFFF_FFFF), h.allocs[key].size, dst - key.addr))
  {
    AttributableResolves(h, key, dst);
    var slot, ring := SlotFor(key.addr, h.allocs[key]), HeapWrite(h, t, dst, len, etype, api, env).chan.ring;
    WriteArrives(h, t, dst, len, etype, api, env);
    ResolvedCandidate(h, t, dst, len, etype, api, env.stack, slot, ring[|h.chan.ring|], log);
  }

  /** A write at the base of a live allocation needs no index: whatever else is live around it
      and whatever the buckets have lost, it is reported exactly when it runs past the end of
      that allocation, and never for one of size zero. */
  lemma BaseWriteNeedsNoIndex(h: Heap, t: Task, dst: u64, len: u64, etype: EventType, api: int, env: Env,
                              log: seq<FindingKey>)
    requires Inv(h) && env.ringOk && etype in {Memcpy, Memmove, Memset, Strcpy, Strncpy}
    requires AllocKey(t.pid, dst) in h.allocs && h.allocs[AllocKey(t.pid, dst)].size < 0xFFFF_FFFF
    ensures var info, ring := h.allocs[AllocKey(t.pid, dst)], HeapWrite(h, t, dst, len, etype, api, env).chan.ring;
      && OneMore(h.chan.ring, ring)
      && var e := ring[|h.chan.ring|];
         && IsSite(e.siteId, info.stack)
         && Candidate(log, e) ==
              if 0 < info.size < len then
                Some(FindingKey(HeapOverflow, 0, t.pid, e.siteId, env.stack, dst, Min(len, 0xFFFF_FFFF), info.size, 0))
              else None
  {
    var slot, ring := SlotFor(dst, h.allocs[AllocKey(t.pid, dst)]), HeapWrite(h, t, dst, len, etype, api, env).chan.ring;
    WriteArrives(h, t, dst, len, etype, api, env);
    ResolvedCandidate(h, t, dst, len, etype, api, env.stack, slot, ring[|h.chan.ring|], log);
  }

  /** A write where no allocation of the process is live is never a finding, whatever its length. */
  lemma StrayWriteIsSilent(h: Heap, t: Task, dst: u64, len: u64, etype: EventType, api: int, stack: int,
                           log: seq<FindingKey>)
    requires Inv(h) && etype in {Memcpy, Memmove, Memset, Strcpy, Strncpy}
    requires AllocKey(t.pid, dst) !in h.allocs
    requires forall key: AllocKey :: key.pid == t.pid ==> !LiveCover(h, key, dst)
    ensures Candidate(log, WriteEvent(h, t, dst, len, etype, api, stack)).None?
  {
    if Resolve(h, t.pid, dst).Some? {
      ResolvedIsLive(h, t.pid, dst);
    }
  }

  lemma CreateIsQuiet(ch: Channel, pid: u32, stateOk: bool)
    ensures var ch' := ApplyOp(ch, Create(pid, stateOk)); ch'.ring == ch.ring && (Armed(ch', pid) <==> Armed(ch, pid))
  {
  }

  /** Nothing is posted for a write to null or by a process that was never armed. */
  lemma UnarmedWriteIsSilent(h: Heap, t: Task, dst: u64, len: u64, etype: EventType, api: int, env: Env)
    requires dst == 0 || !Armed(h.chan, t.pid)
    ensures HeapWrite(h, t, dst, len, etype, api, env).chan.ring == h.chan.ring
  {
    CreateIsQuiet(h.chan, t.pid, env.stateOk);
  }

  // ----- descriptors -----

  lemma CloseCandidate(log: seq<FindingKey>, e: Event)
    requires e.etype == FdClose && (e.errno == 1 || e.errno == 2)
    ensures Candidate(log, e) == Some(FindingKey(if e.errno == 1 then DoubleClose else InvalidClose, e.errno, e.pid,
                                                 e.siteId, e.stackId, e.addr, e.len, e.allocSize, e.allocOffset))
  {
  }

  /** Under the conditions of a first exit, in every run: a failed close of a descriptor not
      last seen obtained becomes a double close if it was ever seen obtained and an invalid
      close if it never was; any other first exit posts nothing. */
  lemma CloseReported(steps: seq<Step>, p: FdProbe, log: seq<FindingKey>)
    requires Follows(steps) && !IsEntry(p) && Allowed(WorldAfter(steps), See(p))
    requires PhaseOf(WorldAfter(steps), p.task.tid).Effected? && p.env.ringOk && p.env.stateOk
    ensures var sys := PhaseOf(WorldAfter(steps), p.task.tid).sys;
      var ring, ring' := TrackedAfter(steps).chan.ring, ApplyFd(TrackedAfter(steps), p).chan.ring;
      var seen := if sys.Close? then Seen(steps, FdKey(p.task.pid, sys.fd)) else [];
      if sys.Close? && p.ret != 0 && (seen == [] || Last(seen).GiveUp?) then
        && |ring'| == |ring| + 1
        && var e := ring'[|ring|];
           && e.errno == (if Obtain in seen then 1 else 2)
           && Candidate(log, e).Some?
           && var k := Candidate(log, e).value;
              && k.kind == (if Obtain in seen then DoubleClose else InvalidClose)
              && k.status == (if Obtain in seen then 1 else 2)
              && k.pid == p.task.pid && k.addr == sys.fd % 0x1_0000_0000
              && k.siteId == e.siteId && k.stackId == e.stackId && k.len == k.allocSize == k.allocOffset == 0
      else ring' == ring
  {
    CloseVerdict(steps, p);
    if PhaseOf(WorldAfter(steps), p.task.tid).sys.Close? {
      CloseExit(steps, p);
      var f, f' := TrackedAfter(steps), ApplyFd(TrackedAfter(steps), p);
      FailedCloseEvent(f, p.task, p.ret, p.env);
      if |f'.chan.ring| > |f.chan.ring| {
        CloseCandidate(log, f'.chan.ring[|f.chan.ring|]);
      }
    }
  }

  /** The event of a failed close: the descriptor as an address, the result, the stack seen on
      entry or else on exit, and the site of the acquisition if the descriptor was given up. */
  lemma FailedCloseEvent(f: Fds, t: Task, ret: int, env: FdEnv)
    requires t.tid in f.pendingClose && env.ringOk && env.stateOk
    ensures var fd, key := f.pendingClose[t.tid].fd, FdKey(t.pid, f.pendingClose[t.tid].fd);
      var ring, ring' := f.chan.ring, CloseReturn(f, t, ret, env).chan.ring;
      ret != 0 && key !in f.open ==>
        && OneMore(ring, ring')
        && var e := ring'[|ring|];
           && e.etype == FdClose && e.pid == t.pid && e.fd == fd && e.addr == fd % 0x1_0000_0000
           && (-0x8000_0000 <= ret < 0x8000_0000 ==> e.bytesRet == ret)
           && e.stackId == (if f.pendingClose[t.tid].stack < 0 then env.stack else f.pendingClose[t.tid].stack)
           && (if key in f.closed then IsSite(e.siteId, f.closed[key].openStack) else e.siteId == 0)
           && e.len == e.allocSize == e.allocOffset == 0
  {
  }

  /** Recording an open: with the stack of the exit probe, or at a raw exit with that of the
      raw entry. */
  lemma OpenRecordsStack(f: Fds, t: Task, fd: s32, entry: int, env: FdEnv)
    requires fd >= 0 && t.tid !in f.pendingDup && t.tid !in f.pendingClose
    ensures ApplyFd(f, ExitOpen(t, fd, env)).open[FdKey(t.pid, fd)] == FdInfo(env.stack, -1, env.stack)
    ensures env.stateOk ==> Armed(ApplyFd(f, ExitOpen(t, fd, env)).chan, t.pid)
    ensures var f' := ApplyFd(ApplyFd(f, EnterOpen(t, entry)), RawExit(t, fd, env));
      FdKey(t.pid, fd) in f'.open && f'.open[FdKey(t.pid, fd)] == FdInfo(entry, -1, entry)
  {
  }

  /** Closing it keeps the record, with the stack of the close. */
  lemma CloseKeepsRecord(f: Fds, t: Task, fd: s32, stack: int, env: FdEnv)
    requires FdKey(t.pid, fd) in f.open && fd >= 0
    ensures var f', key := ApplyFd(ApplyFd(f, EnterClose(t, fd, stack)), ExitClose(t, 0, env)), FdKey(t.pid, fd);
      key !in f'.open && key in f'.closed && f'.closed[key] == f.open[key].(closeStack := stack)
  {
  }

  /** From any state: open, close and close again. The second close is reported as a double
      close at its own stack, with the site of the open. */
  lemma SecondCloseReported(f: Fds, t: Task, fd: s32, second: int, env: FdEnv, log: seq<FindingKey>)
    requires fd >= 0 && env.ringOk && env.stateOk && env.stack >= 0 && second >= 0
    requires t.tid !in f.pendingDup && t.tid !in f.pendingClose
    ensures var acquired := ApplyFd(f, ExitOpen(t, fd, env));
      var closed := ApplyFd(ApplyFd(acquired, EnterClose(t, fd, 0)), ExitClose(t, 0, env));
      var again := ApplyFd(ApplyFd(closed, EnterClose(t, fd, second)), ExitClose(t, -1, env));
      && OneMore(closed.chan.ring, again.chan.ring)
      && Candidate(log, again.chan.ring[|closed.chan.ring|]) ==
           Some(FindingKey(DoubleClose, 1, t.pid, (env.stack + 1) % 0x1_0000_0000, second, fd, 0, 0, 0))
  {
    var acquired := ApplyFd(f, ExitOpen(t, fd, env));
    OpenRecordsStack(f, t, fd, 0, env);
    CloseKeepsRecord(acquired, t, fd, 0, env);
    var closed := ApplyFd(ApplyFd(acquired, EnterClose(t, fd, 0)), ExitClose(t, 0, env));
    FailedCloseEvent(ApplyFd(closed, EnterClose(t, fd, second)), t, -1, env);
    CloseReturnPosts(ApplyFd(closed, EnterClose(t, fd, second)), t, -1, env);
    var again := CloseReturn(ApplyFd(closed, EnterClose(t, fd, second)), t, -1, env);
    CloseCandidate(log, again.chan.ring[|closed.chan.ring|]);
  }

  /** A leak names the descriptor and the site of its acquisition, and no stack of its own. */
  lemma LeakReported(key: FdKey, info: FdInfo)
    requires key.fd >= 0
    ensures var k := LeakKey(key, info);
      IsSite(k.siteId, info.openStack) && k == FindingKey(Leak, 3, key.pid, k.siteId, -1, key.fd, 0, 0, 0)
  {
  }

  /** The ring remembers exactly the last 256 emissions. */
  lemma RemembersLast256(log: seq<FindingKey>, k: FindingKey)
    ensures k in Window(log) <==> exists i :: 0 <= i < |log| && |log| - 256 <= i && log[i] == k
  {
    if k in Window(log) {
      var w :| 0 <= w < |Window(log)| && Window(log)[w] == k;
      assert log[|log| - |Window(log)| + w] == k;
    }
    forall i | 0 <= i < |log| && |log| - 256 <= i && log[i] == k ensures k in Window(log) {
      WindowHolds(log, i);
    }
  }

  /** An event of an allowed process adds the finding it stands for, unless that one is among
      the last 256; any other event adds nothing. */
  lemma EventEmits(log: seq<FindingKey>, allowed: bool, e: Event)
    ensures var recent := Candidate(log, e).Some? &&
        exists i :: 0 <= i < |log| && |log| - 256 <= i && log[i] == Candidate(log, e).value;
      AfterEvent(log, allowed, e) ==
        if allowed && Candidate(log, e).Some? && !recent then log + [Candidate(log, e).value] else log
  {
    if Candidate(log, e).Some? {
      RemembersLast256(log, Candidate(log, e).value);
    }
  }
}
