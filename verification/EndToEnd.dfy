/** From a release or write in the target to the agent's finding. */
module EndToEnd {
  import opened Words
  import opened RangeIndex
  import opened Sentinel
  import opened HeapTracker
  import opened FreeHistory
  import opened IndexRuns
  import IndexInvariants
  import opened CopyChecker
  import opened Agent
  import HeapProbes

  /** The finding a release of a pointer with this past stands for. */
  function ReleaseFinding(log: seq<FindingKey>, e: Event, fate: Fate, d: DeallocFamily): Option<FindingKey> {
    match fate
    case Unknown => if Remembered(log, HeapOverflow, e.pid, e.addr) then None else Some(KeyFor(e, InvalidFree, 2))
    case Live(info) => if FamilyMatches(info.family, d) then None else Some(KeyFor(e, AllocatorMismatch, 3))
    case Gone(info, d0) =>
      if CppRelease(d0) || Remembered(log, AllocatorMismatch, e.pid, e.addr) then None
      else if d == DeallocFree && (info.family == AllocNew || info.family == AllocNewArray) then None
      else Some(KeyFor(e, DoubleFree, 1))
  }

  /** What the event of a release says about the allocation: family, size and site. */
  predicate Describes(e: Event, fate: Fate) {
    match fate
    case Unknown => e.len == 0 && e.allocSize == 0 && e.siteId == 0
    case Live(info) => DescribesInfo(e, info)
    case Gone(info, _) => DescribesInfo(e, info)
  }

  predicate DescribesInfo(e: Event, info: AllocInfo) {
    e.len == AllocCode(info.family) && e.allocSize == Saturate32(info.size) && e.siteId == SiteOf(info.stack)
  }

  lemma ReleaseEventFields(h: Heap, t: Task, ptr: u64, d: DeallocFamily, stack: int, fate: Fate)
    requires Inv(h) && Project(h, AllocKey(t.pid, ptr)) == fate
    ensures var e := FreeEvent(h, t, ptr, d, stack);
      e.etype == Free && e.addr == ptr && e.bytesRet == DeallocCode(d) && Describes(e, fate)
  {
  }

  lemma VerdictToFinding(log: seq<FindingKey>, e: Event, fate: Fate, d: DeallocFamily)
    requires e.etype == Free && e.bytesRet == DeallocCode(d) && FateVerdict(fate, d).Some?
    requires e.errno == StatusCode(FateVerdict(fate, d).value) && Describes(e, fate)
    ensures Candidate(log, e) == ReleaseFinding(log, e, fate, d)
  {
  }

  /** In every reachable state, a release that is posted describes the pointer's last
      allocation and becomes exactly the finding that the pointer's own history calls for:
      none for a benign release, and a mismatch, double or invalid free otherwise, save
      for the agent's secondary-symptom rules. */
  lemma ReleaseBecomesFinding(ps: seq<Probe>, t: Task, ptr: u64, d: DeallocFamily, env: Env, log: seq<FindingKey>)
    requires ptr != 0 && env.ringOk && env.stateOk
    ensures var h := Run(EMPTY_HEAP, ps);
      var fate := FateOf(History(ps, AllocKey(t.pid, ptr)));
      var ring := Apply(h, Release(t, ptr, d, env)).chan.ring;
      if FateVerdict(fate, d).None? then ring == h.chan.ring
      else
        && |ring| == |h.chan.ring| + 1
        && var e := ring[|h.chan.ring|];
           e.pid == t.pid && e.addr == ptr && Describes(e, fate) && Candidate(log, e) == ReleaseFinding(log, e, fate, d)
  {
    var h := Run(EMPTY_HEAP, ps);
    var fate := FateOf(History(ps, AllocKey(t.pid, ptr)));
    ReachableInv(ps);
    TrackerRefinesHistory(ps, AllocKey(t.pid, ptr));
    ReleasePostsHistoryVerdict(ps, t, ptr, d, env);
    ReleaseEventFields(h, t, ptr, d, env.stack, fate);
    if FateVerdict(fate, d).Some? {
      var ring := Apply(h, Release(t, ptr, d, env)).chan.ring;
      VerdictToFinding(log, ring[|h.chan.ring|], fate, d);
    }
  }

  /** When the agent stays silent on a double free: after a mismatch remembered at the
      address, or when storage from operator new is given to free again. Either way of
      hiding it by the second rule, the first release had mismatched its allocation. */
  lemma HiddenDoubleFreeIff(log: seq<FindingKey>, e: Event, fate: Fate, d: DeallocFamily)
    requires FateVerdict(fate, d) == Some(FreeDouble)
    ensures ReleaseFinding(log, e, fate, d).None? <==>
      || Remembered(log, AllocatorMismatch, e.pid, e.addr)
      || (d == DeallocFree && (fate.info.family == AllocNew || fate.info.family == AllocNewArray))
    ensures d == DeallocFree && (fate.info.family == AllocNew || fate.info.family == AllocNewArray) ==>
      !FamilyMatches(fate.info.family, fate.dealloc)
  {
  }

  function NewAndFree(t: Task, ptr: u64, size: u64): seq<Probe> {
    [Enter(t, Sized(size))] + [AllocExit(t, ptr, AllocNew, OK)] + [Release(t, ptr, DeallocFree, OK)]
  }

  lemma NewAndFreeFate(t: Task, ptr: u64, size: u64)
    requires ptr != 0
    ensures var fate := FateOf(History(NewAndFree(t, ptr, size), AllocKey(t.pid, ptr)));
      fate.Gone? && fate.info.family == AllocNew && fate.dealloc == DeallocFree
  {
    var key := AllocKey(t.pid, ptr);
    var enter, exit, free := Enter(t, Sized(size)), AllocExit(t, ptr, AllocNew, OK), Release(t, ptr, DeallocFree, OK);
    FateStep([], enter, key);
    FateStep([] + [enter], exit, key);
    FateStep([] + [enter] + [exit], free, key);
    assert NewAndFree(t, ptr, size) == [] + [enter] + [exit] + [free];
  }

  /** So a session that has forgotten the mismatch, or never saw it, reports nothing of a
      pointer from new that is given to free twice. */
  lemma FreedTwiceIsHidden(t: Task, ptr: u64, size: u64, log: seq<FindingKey>)
    requires ptr != 0
    ensures var h := Run(EMPTY_HEAP, NewAndFree(t, ptr, size));
      var ring := Apply(h, Release(t, ptr, DeallocFree, OK)).chan.ring;
      && |ring| == |h.chan.ring| + 1 && ring[|h.chan.ring|].addr == ptr
      && ring[|h.chan.ring|].errno == StatusCode(FreeDouble)
      && Candidate(log, ring[|h.chan.ring|]).None?
  {
    NewAndFreeFate(t, ptr, size);
    ReleaseBecomesFinding(NewAndFree(t, ptr, size), t, ptr, DeallocFree, OK, log);
    ReleasePostsHistoryVerdict(NewAndFree(t, ptr, size), t, ptr, DeallocFree, OK);
  }

  /** A release at an address no allocation starts at and no freed one did. */
  lemma StrayReleasePosts(h: Heap, t: Task, ptr: u64, d: DeallocFamily, env: Env)
    requires Inv(h) && ptr != 0 && env.ringOk && StateFound(h, t.pid, env)
    requires AllocKey(t.pid, ptr) !in h.allocs && AllocKey(t.pid, ptr) !in h.freed
    ensures var ring := Apply(h, Release(t, ptr, d, env)).chan.ring;
      && |ring| == |h.chan.ring| + 1
      && var e := ring[|h.chan.ring|];
         e.etype == Free && e.errno == StatusCode(FreeInvalid) && e.pid == t.pid && e.addr == ptr
  {
    ReleasePostsVerdict(h, t, ptr, d, env, Unknown);
  }

  lemma WindowAfter(log: seq<FindingKey>, k: FindingKey)
    ensures k in Window(Emitted(log, Some(k)))
    ensures forall x :: x in Window(Emitted(log, Some(k))) ==> x == k || x in Window(log)
  {
    var log' := Emitted(log, Some(k));
    if k !in Window(log) {
      WindowHolds(log', |log|);
      forall x | x in Window(log') ensures x == k || x in Window(log) {
        var i :| 0 <= i < |Window(log')| && Window(log')[i] == x;
        var j := |log'| - |Window(log')| + i;
        if j < |log| {
          WindowHolds(log, j);
        }
      }
    }
  }

  /** With no overflow remembered at the address before: once an overflow at `dst` has been
      reported, an invalid free of `ptr` is withheld exactly when `ptr` is `dst`. */
  lemma WithheldIffSameAddress(log: seq<FindingKey>, w: Event, r: Event)
    requires Candidate(log, w) == Some(KeyFor(w, HeapOverflow, 0)) && r.pid == w.pid
    requires r.etype == Free && r.errno == StatusCode(FreeInvalid) && !Remembered(log, HeapOverflow, r.pid, r.addr)
    ensures Candidate(AfterEvent(log, true, w), r) == if r.addr == w.addr then None else Some(KeyFor(r, InvalidFree, 2))
  {
    var k := KeyFor(w, HeapOverflow, 0);
    WindowAfter(log, k);
    assert Remembered(AfterEvent(log, true, w), HeapOverflow, r.pid, r.addr) <==> r.addr == w.addr;
  }

  /** In every state with a sound and complete index: an overrun of an allocation from `dst`,
      then the release of a pointer into that same allocation that is no base itself. The
      agent withholds the invalid free exactly when the pointer is the address written to,
      not when it merely lies in the same allocation. */
  lemma SuppressionIsByWriteAddress(h: Heap, t: Task, key: AllocKey, dst: u64, len: u64, etype: EventType, api: int,
                                    ptr: u64, d: DeallocFamily, env: Env, log: seq<FindingKey>)
    requires Inv(h) && IndexComplete(h) && env.ringOk && etype in {Memcpy, Memmove, Memset, Strcpy, Strncpy}
    requires key.pid == t.pid && Attributable(h, key, dst) && h.allocs[key].size < U32_MAX
    requires dst - key.addr + len > h.allocs[key].size
    requires LiveCover(h, key, ptr) && AllocKey(t.pid, ptr) !in h.allocs && AllocKey(t.pid, ptr) !in h.freed
    requires !Remembered(log, HeapOverflow, t.pid, ptr)
    ensures var written := HeapWrite(h, t, dst, len, etype, api, env);
      var released := Apply(written, Release(t, ptr, d, env));
      && |released.chan.ring| == |h.chan.ring| + 2
      && var w, r := released.chan.ring[|h.chan.ring|], released.chan.ring[|h.chan.ring| + 1];
         && Candidate(log, w) == Some(KeyFor(w, HeapOverflow, 0))
         && Candidate(AfterEvent(log, true, w), r) == if ptr == dst then None else Some(KeyFor(r, InvalidFree, 2))
  {
    var written := HeapWrite(h, t, dst, len, etype, api, env);
    OverrunBecomesFinding(h, t, key, dst, len, etype, api, env, log);
    WrittenEvent(h, t, key, dst, len, etype, api, env);
    WriteKeepsInv(h, t, dst, len, etype, api, env);
    StrayReleasePosts(written, t, ptr, d, env);
    ReleaseKeepsRing(written, t, ptr, d, env);
    var n := |h.chan.ring|;
    var ring := Apply(written, Release(t, ptr, d, env)).chan.ring;
    assert ring[n] == written.chan.ring[n];
    WithheldIffSameAddress(log, ring[n], ring[n + 1]);
  }

  lemma WrittenEvent(h: Heap, t: Task, key: AllocKey, dst: u64, len: u64, etype: EventType, api: int, env: Env)
    requires Inv(h) && env.ringOk && dst != 0 && key in h.allocs && key.pid == t.pid
    ensures var written := HeapWrite(h, t, dst, len, etype, api, env);
      && written.allocs == h.allocs && written.freed == h.freed && t.pid in written.chan.states
      && |written.chan.ring| == |h.chan.ring| + 1
      && written.chan.ring[|h.chan.ring|].addr == dst && written.chan.ring[|h.chan.ring|].pid == t.pid
  {
    assert Armed(h.chan, t.pid);
    PostAppends(h.chan, t, env.ringOk, WriteEvent(h, t, dst, len, etype, api, env.stack));
  }

  lemma ReleaseKeepsRing(h: Heap, t: Task, ptr: u64, d: DeallocFamily, env: Env)
    requires Inv(h) && ptr != 0
    ensures h.chan.ring <= Apply(h, Release(t, ptr, d, env)).chan.ring
  {
    ReleasePostsVerdict(h, t, ptr, d, env, Project(h, AllocKey(t.pid, ptr)));
  }

  /** So in a 16-byte allocation, after a copy overran it from its fifth byte, giving its
      ninth byte to free is reported as one more root cause. */
  lemma SecondSymptomReported(t: Task)
    ensures var h := Run(EMPTY_HEAP, MallocCall(t, 0x1000, 16));
      var written := HeapWrite(h, t, 0x1004, 64, Memcpy, 0, OK);
      var ring := Apply(written, Release(t, 0x1008, DeallocFree, OK)).chan.ring;
      && |ring| == |h.chan.ring| + 2
      && var w, r := ring[|h.chan.ring|], ring[|h.chan.ring| + 1];
         && Candidate([], w) == Some(KeyFor(w, HeapOverflow, 0))
         && Candidate(AfterEvent([], true, w), r) == Some(KeyFor(r, InvalidFree, 2))
  {
    var h, key := Run(EMPTY_HEAP, MallocCall(t, 0x1000, 16)), AllocKey(t.pid, 0x1000);
    OneAllocation(t, 16);
    assert h.allocs[key] == AllocInfo(16, 0, AllocMalloc, DeallocUnknown);
    assert AllocKey(t.pid, 0x1008) !in h.freed by {
      NothingFreed(t);
    }
    assert IndexComplete(h) by {
      forall other, page: nat | other in h.allocs ensures IndexInvariants.Found(h.allocs, h.ranges, other, page) {
        assert other == key;
        assert OnPage(0x1000, 16, page) ==> page == 1;
        assert BucketAt(h.ranges, RangeKey(t.pid, 1))[0].base == 0x1000;
      }
    }
    SuppressionIsByWriteAddress(h, t, key, 0x1004, 64, Memcpy, 0, 0x1008, DeallocFree, OK, []);
  }

  lemma NothingFreed(t: Task)
    ensures Run(EMPTY_HEAP, MallocCall(t, 0x1000, 16)).freed == map[]
  {
    var ps := MallocCall(t, 0x1000, 16);
    RunAppend([], ps[0]);
    RunAppend([] + [ps[0]], ps[1]);
    assert ps == [] + [ps[0]] + [ps[1]];
  }

  /** A write into an indexed page of exactly one live allocation becomes a heap-overflow
      finding exactly when it runs past the end of that allocation. */
  lemma OverrunBecomesFinding(h: Heap, t: Task, key: AllocKey, dst: u64, len: u64, etype: EventType, api: int, env: Env,
                              log: seq<FindingKey>)
    requires Inv(h) && IndexComplete(h) && env.ringOk && etype in {Memcpy, Memmove, Memset, Strcpy, Strncpy}
    requires key.pid == t.pid && Attributable(h, key, dst) && h.allocs[key].size < U32_MAX
    ensures var ring := HeapWrite(h, t, dst, len, etype, api, env).chan.ring;
      && |ring| == |h.chan.ring| + 1
      && var e := ring[|h.chan.ring|];
         Candidate(log, e) ==
           if dst - key.addr + len > h.allocs[key].size then Some(KeyFor(e, HeapOverflow, 0)) else None
  {
    OverrunReportedIff(h, t, key, dst, len, etype, api, env);
    PostAppends(h.chan, t, env.ringOk, WriteEvent(h, t, dst, len, etype, api, env.stack));
  }

  /** A valid tracker object obeys every theorem about runs, with its own trace as the run. */
  lemma TrackerObeysRunTheorems(tracker: HeapProbes.Tracker, key: AllocKey)
    requires tracker.Valid()
    ensures Inv(tracker.View())
    ensures Project(tracker.View(), key) == FateOf(History(tracker.Trace(), key))
    ensures AlwaysSparse(tracker.Trace()) ==> IndexComplete(tracker.View())
    ensures Numbered(tracker.View().chan, key.pid)
  {
    tracker.ValidMeansInv();
    TrackerRefinesHistory(tracker.Trace(), key);
    CompleteIffSparse(tracker.Trace());
    tracker.chan.Accounts(key.pid);
  }
}
