/** Hand-off from allocator entry to allocator return, per thread, under any
    interleaving with other threads. */
module Handoff {
  import opened Words
  import opened RangeIndex
  import opened Sentinel
  import opened HeapTracker

  /** The calls a thread is inside, outermost first, and whether its last probe was the entry
      of the innermost; or outside the protocol because an entry or return went unseen. */
  datatype Phase = Within(calls: seq<Call>, intact: bool) | Broken

  function Innermost(ph: Phase): Call
    requires ph.Within? && ph.calls != []
  {
    ph.calls[|ph.calls| - 1]
  }

  predicate IsReturn(p: Probe, tid: u32) {
    (p.AllocExit? || p.ReallocExit? || p.MemalignExit?) && p.task.tid == tid
  }

  predicate Answers(p: Probe, c: Call) {
    match c
    case Sized(_) => p.AllocExit?
    case Calloc(_, _) => p.AllocExit?
    case Strdup(_, _) => p.AllocExit?
    case Realloc(_, _) => p.ReallocExit?
    case Memalign(_, _) => p.MemalignExit?
  }

  function Advance(ph: Phase, p: Probe, tid: u32): Phase {
    if ph.Broken? then ph
    else if p.Enter? && p.task.tid == tid then Within(ph.calls + [p.call], true)
    else if IsReturn(p, tid) then
      if ph.calls != [] && Answers(p, Innermost(ph)) then Within(ph.calls[..|ph.calls| - 1], false) else Broken
    else ph
  }

  function PhaseOf(ps: seq<Probe>, tid: u32): Phase {
    if ps == [] then Within([], false) else Advance(PhaseOf(ps[..|ps| - 1], tid), ps[|ps| - 1], tid)
  }

  function ReallocArg(c: Call): u64 {
    if c.Realloc? then c.oldPtr else 0
  }

  predicate NoOldPointer(calls: seq<Call>) {
    forall c :: c in calls ==> ReallocArg(c) == 0
  }

  predicate NoOutSlot(calls: seq<Call>) {
    forall c :: c in calls ==> !c.Memalign?
  }

  /** The pending maps hold exactly what the innermost call put there until something returns
      inside it, and nothing that no call the thread is inside has put there. */
  ghost predicate Carries(h: Heap, tid: u32, ph: Phase) {
    ph.Within? ==>
      && (tid in h.pending <==> ph.intact && ph.calls != [])
      && (tid in h.pending ==> h.pending[tid] == Encode(RequestedSize(Innermost(ph))))
      && (NoOldPointer(ph.calls) ==> tid !in h.reallocOld)
      && (NoOutSlot(ph.calls) ==> tid !in h.outPtr)
      && (ph.intact && ph.calls != [] ==>
           && (ReallocArg(Innermost(ph)) != 0 ==> tid in h.reallocOld && h.reallocOld[tid] == ReallocArg(Innermost(ph)))
           && (Innermost(ph).Memalign? ==> tid in h.outPtr && h.outPtr[tid] == Innermost(ph).slot))
  }

  /** Allocation and free bookkeeping never touches the pending maps. */
  lemma ReturnKeepsPending(h: Heap, t: Task, ret: u64, size: Option<u64>, family: AllocFamily, env: Env)
    ensures var h' := AllocReturn(h, t, ret, size, family, env);
      h'.pending == h.pending && h'.reallocOld == h.reallocOld && h'.outPtr == h.outPtr
  {
  }

  /** Only the pending maps of the two values differ, and only by the entry of `tid`. */
  ghost predicate TakenFrom(h: Heap, h': Heap, tid: u32, realloc: bool, memalign: bool) {
    && h'.pending == h.pending - {tid}
    && h'.reallocOld == (if realloc then h.reallocOld - {tid} else h.reallocOld)
    && h'.outPtr == (if memalign then h.outPtr - {tid} else h.outPtr)
  }

  lemma AllocExitTakesOwn(h: Heap, t: Task, ret: u64, family: AllocFamily, env: Env)
    ensures TakenFrom(h, Apply(h, AllocExit(t, ret, family, env)), t.tid, false, false)
  {
    ReturnKeepsPending(h.(pending := h.pending - {t.tid}), t, ret, TakenSize(h, t.tid), family, env);
  }

  lemma ReallocExitTakesOwn(h: Heap, t: Task, ret: u64, env: Env)
    ensures TakenFrom(h, ReallocReturn(h, t, ret, env), t.tid, true, false)
  {
    var oldPtr := if t.tid in h.reallocOld then h.reallocOld[t.tid] else 0;
    var h1 := h.(pending := h.pending - {t.tid}, reallocOld := h.reallocOld - {t.tid});
    assert TakenFrom(h, h1, t.tid, true, false);
    var h2 := if oldPtr != 0 && oldPtr != ret then MarkFreed(h1, AllocKey(t.pid, oldPtr)) else h1;
    if ret != 0 {
      ReturnKeepsPending(h2, t, ret, TakenSize(h, t.tid), AllocMalloc, env);
    }
  }

  lemma MemalignExitTakesOwn(h: Heap, t: Task, rc: int, readOk: bool, stored: u64, env: Env)
    ensures TakenFrom(h, MemalignReturn(h, t, rc, readOk, stored, env), t.tid, false, true)
  {
    var h1 := h.(pending := h.pending - {t.tid}, outPtr := h.outPtr - {t.tid});
    ReturnKeepsPending(h1, t, stored, TakenSize(h, t.tid), AllocMalloc, env);
  }

  lemma {:induction false} PopKeeps(calls: seq<Call>)
    requires calls != []
    ensures NoOldPointer(calls[..|calls| - 1]) && ReallocArg(calls[|calls| - 1]) == 0 ==> NoOldPointer(calls)
    ensures NoOutSlot(calls[..|calls| - 1]) && !calls[|calls| - 1].Memalign? ==> NoOutSlot(calls)
  {
    var before, last := calls[..|calls| - 1], calls[|calls| - 1];
    assert calls == before + [last];
    forall c | c in calls ensures c in before || c == last {
    }
  }

  lemma TakingCarries(h: Heap, h': Heap, p: Probe, tid: u32, ph: Phase)
    requires p.AllocExit? || p.ReallocExit? || p.MemalignExit?
    requires TakenFrom(h, h', p.task.tid, p.ReallocExit?, p.MemalignExit?)
    requires Carries(h, tid, ph)
    ensures Carries(h', tid, Advance(ph, p, tid))
  {
    if ph.Within? && ph.calls != [] {
      PopKeeps(ph.calls);
    }
  }

  lemma PushKeeps(calls: seq<Call>, c: Call)
    ensures NoOldPointer(calls + [c]) ==> NoOldPointer(calls) && ReallocArg(c) == 0
    ensures NoOutSlot(calls + [c]) ==> NoOutSlot(calls) && !c.Memalign?
  {
    assert forall x :: x in calls || x == c ==> x in calls + [c];
  }

  lemma OwnEntryCarries(h: Heap, t: Task, c: Call, ph: Phase)
    requires Carries(h, t.tid, ph) && ph.Within?
    ensures Carries(Remember(h, t, c), t.tid, Within(ph.calls + [c], true))
  {
    PushKeeps(ph.calls, c);
    var h' := Remember(h, t, c);
    assert h'.pending == h.pending[t.tid := Encode(RequestedSize(c))];
    assert h'.reallocOld == if ReallocArg(c) != 0 then h.reallocOld[t.tid := ReallocArg(c)] else h.reallocOld;
    assert h'.outPtr == if c.Memalign? then h.outPtr[t.tid := c.slot] else h.outPtr;
  }

  lemma EntryCarries(h: Heap, t: Task, c: Call, tid: u32, ph: Phase)
    requires Carries(h, tid, ph)
    ensures Carries(Remember(h, t, c), tid, Advance(ph, Enter(t, c), tid))
  {
    if t.tid == tid && ph.Within? {
      OwnEntryCarries(h, t, c, ph);
    }
  }

  lemma ReleaseCarries(h: Heap, p: Probe, tid: u32, ph: Phase)
    requires p.Release? && Carries(h, tid, ph)
    ensures Carries(Apply(h, p), tid, ph)
  {
  }

  lemma StepCarries(h: Heap, p: Probe, tid: u32, ph: Phase)
    requires Carries(h, tid, ph)
    ensures Carries(Apply(h, p), tid, Advance(ph, p, tid))
  {
    match p
    case Enter(t, c) => EntryCarries(h, t, c, tid, ph);
    case AllocExit(t, ret, family, env) =>
      AllocExitTakesOwn(h, t, ret, family, env);
      TakingCarries(h, Apply(h, p), p, tid, ph);
    case ReallocExit(t, ret, env) =>
      ReallocExitTakesOwn(h, t, ret, env);
      TakingCarries(h, ReallocReturn(h, t, ret, env), p, tid, ph);
    case MemalignExit(t, rc, readOk, stored, env) =>
      MemalignExitTakesOwn(h, t, rc, readOk, stored, env);
      TakingCarries(h, MemalignReturn(h, t, rc, readOk, stored, env), p, tid, ph);
    case Release(_, _, _, _) => ReleaseCarries(h, p, tid, ph);
    case Outside(_) =>
  }

  /** Whatever other threads do in between, and however its own calls nest, a thread finds
      what the entry just before stored, and once all its calls have returned it has left
      nothing behind. */
  lemma {:induction false} OwnEntryArrives(ps: seq<Probe>, tid: u32)
    ensures Carries(Run(EMPTY_HEAP, ps), tid, PhaseOf(ps, tid))
  {
    if ps != [] {
      OwnEntryArrives(ps[..|ps| - 1], tid);
      StepCarries(Run(EMPTY_HEAP, ps[..|ps| - 1]), ps[|ps| - 1], tid, PhaseOf(ps[..|ps| - 1], tid));
    }
  }

  /** A thread whose calls have all returned, nested ones included, has nothing pending. */
  lemma ReturnedLeavesNothing(ps: seq<Probe>, tid: u32)
    requires PhaseOf(ps, tid).Within? && PhaseOf(ps, tid).calls == []
    ensures var h := Run(EMPTY_HEAP, ps); tid !in h.pending && tid !in h.reallocOld && tid !in h.outPtr
  {
    OwnEntryArrives(ps, tid);
  }

  /** The size codec loses exactly one size. */
  lemma CodecExactIff(size: u64)
    ensures Decode(Encode(size)) == size <==> size != U64_MAX - 1
    ensures Decode(Encode(size)) == if size == U64_MAX - 1 then U64_MAX else size
  {
  }

  /** The pointer a return records: the one returned, or for memalign the one stored, if its
      status is zero and the slot it was given can be read. */
  function Landing(p: Probe, c: Call): u64
    requires Answers(p, c)
  {
    if p.MemalignExit? then if p.rc == 0 && p.readOk && c.slot != 0 then p.stored else 0 else p.ret
  }

  /** Any return that records a pointer, and in which nothing else returned, tracks it with the
      requested size, at any depth of nesting. */
  lemma ReturnTracksRequestedSize(ps: seq<Probe>, p: Probe, c: Call)
    requires Answers(p, c) && Landing(p, c) != 0
    requires var ph := PhaseOf(ps, p.task.tid); ph.Within? && ph.intact && ph.calls != [] && Innermost(ph) == c
    requires p.task.pid in Run(EMPTY_HEAP, ps).chan.states || p.env.stateOk
    ensures var h := Apply(Run(EMPTY_HEAP, ps), p);
      var key := AllocKey(p.task.pid, Landing(p, c));
      && key in h.allocs && key !in h.freed
      && h.allocs[key].family == (if p.AllocExit? then p.family else AllocMalloc)
      && (h.allocs[key].size == RequestedSize(c) <==> RequestedSize(c) != U64_MAX - 1)
  {
    OwnEntryArrives(ps, p.task.tid);
    CodecExactIff(RequestedSize(c));
    var h, size := Run(EMPTY_HEAP, ps), Decode(Encode(RequestedSize(c)));
    assert TakenSize(h, p.task.tid) == Some(size);
    match p
    case AllocExit(t, ret, family, env) =>
      SizedReturnTracks(h.(pending := h.pending - {t.tid}), t, ret, size, family, env);
    case ReallocExit(t, ret, env) =>
      var h1 := h.(pending := h.pending - {t.tid}, reallocOld := h.reallocOld - {t.tid});
      var oldPtr := if t.tid in h.reallocOld then h.reallocOld[t.tid] else 0;
      var h2 := if oldPtr != 0 && oldPtr != ret then MarkFreed(h1, AllocKey(t.pid, oldPtr)) else h1;
      SizedReturnTracks(h2, t, ret, size, AllocMalloc, env);
    case MemalignExit(t, _, _, stored, env) =>
      var h1 := h.(pending := h.pending - {t.tid}, outPtr := h.outPtr - {t.tid});
      SizedReturnTracks(h1, t, stored, size, AllocMalloc, env);
  }

  lemma SizedReturnTracks(h: Heap, t: Task, ret: u64, size: u64, family: AllocFamily, env: Env)
    requires ret != 0 && StateFound(h, t.pid, env)
    ensures var h', key := AllocReturn(h, t, ret, Some(size), family, env), AllocKey(t.pid, ret);
      key in h'.allocs && key !in h'.freed && h'.allocs[key].family == family && h'.allocs[key].size == size
  {
  }

  /** A return inside which another call returned finds no size: malloc then goes untracked,
      and new is tracked with size zero, outside the index. */
  lemma OuterReturnLosesSize(ps: seq<Probe>, p: Probe)
    requires p.AllocExit? && p.ret != 0
    requires var ph := PhaseOf(ps, p.task.tid); ph.Within? && !ph.intact
    requires p.task.pid in Run(EMPTY_HEAP, ps).chan.states || p.env.stateOk
    ensures var h, h' := Run(EMPTY_HEAP, ps), Apply(Run(EMPTY_HEAP, ps), p);
      var key := AllocKey(p.task.pid, p.ret);
      if p.family == AllocMalloc then h'.allocs == h.allocs && h'.ranges == h.ranges
      else key in h'.allocs && h'.allocs[key].size == 0 && Span(key, h'.allocs[key]) == {}
  {
    OwnEntryArrives(ps, p.task.tid);
  }

  // ----- the old pointer of a realloc -----

  /** The pointer of the thread's last realloc entry that had one, if no realloc of the
      thread has returned since. */
  function OldSlot(ps: seq<Probe>, tid: u32): Option<u64> {
    if ps == [] then None
    else
      var p := ps[|ps| - 1];
      if p.Enter? && p.task.tid == tid && ReallocArg(p.call) != 0 then Some(ReallocArg(p.call))
      else if p.ReallocExit? && p.task.tid == tid then None
      else OldSlot(ps[..|ps| - 1], tid)
  }

  ghost predicate Slots(h: Heap, tid: u32, slot: Option<u64>) {
    (tid in h.reallocOld <==> slot.Some?) && (slot.Some? ==> slot.value != 0 && h.reallocOld[tid] == slot.value)
  }

  lemma TakingSlots(h: Heap, h': Heap, p: Probe, tid: u32, slot: Option<u64>)
    requires p.AllocExit? || p.ReallocExit? || p.MemalignExit?
    requires TakenFrom(h, h', p.task.tid, p.ReallocExit?, p.MemalignExit?) && Slots(h, tid, slot)
    ensures Slots(h', tid, if p.ReallocExit? && p.task.tid == tid then None else slot)
  {
  }

  lemma {:induction false} OldSlotIsPending(ps: seq<Probe>, tid: u32)
    ensures Slots(Run(EMPTY_HEAP, ps), tid, OldSlot(ps, tid))
  {
    if ps != [] {
      var before, p := ps[..|ps| - 1], ps[|ps| - 1];
      var h := Run(EMPTY_HEAP, before);
      OldSlotIsPending(before, tid);
      match p
      case AllocExit(t, ret, family, env) =>
        AllocExitTakesOwn(h, t, ret, family, env);
        TakingSlots(h, Apply(h, p), p, tid, OldSlot(before, tid));
      case ReallocExit(t, ret, env) =>
        ReallocExitTakesOwn(h, t, ret, env);
        TakingSlots(h, Apply(h, p), p, tid, OldSlot(before, tid));
      case MemalignExit(t, rc, readOk, stored, env) =>
        MemalignExitTakesOwn(h, t, rc, readOk, stored, env);
        TakingSlots(h, Apply(h, p), p, tid, OldSlot(before, tid));
      case _ =>
    }
  }

  predicate SameEntry(h: Heap, h': Heap, key: AllocKey) {
    key in h.allocs && key in h'.allocs && h'.allocs[key] == h.allocs[key]
  }

  predicate Retired(h: Heap, h': Heap, key: AllocKey) {
    key in h.allocs && key !in h'.allocs && key in h'.freed && h'.freed[key].dealloc == DeallocFree
  }

  lemma MarkFreedRetires(h: Heap, gone: AllocKey)
    ensures gone in h.allocs ==> Retired(h, MarkFreed(h, gone), gone)
    ensures forall key :: key in h.allocs && key != gone ==> SameEntry(h, MarkFreed(h, gone), key)
  {
  }

  lemma ReallocReturnRetires(h: Heap, t: Task, ret: u64, env: Env, slot: Option<u64>)
    requires ret != 0 && Slots(h, t.tid, slot)
    ensures var h' := ReallocReturn(h, t, ret, env);
      forall key :: key in h.allocs && key != AllocKey(t.pid, ret) ==>
        if slot.Some? && key == AllocKey(t.pid, slot.value) then Retired(h, h', key) else SameEntry(h, h', key)
  {
    var h1 := h.(pending := h.pending - {t.tid}, reallocOld := h.reallocOld - {t.tid});
    var h2 := if slot.Some? && slot.value != ret then MarkFreed(h1, AllocKey(t.pid, slot.value)) else h1;
    if slot.Some? {
      MarkFreedRetires(h1, AllocKey(t.pid, slot.value));
    }
    var h' := AllocReturn(h2, t, ret, TakenSize(h, t.tid), AllocMalloc, env);
    ReturnKeepsOthers(h2, t, ret, TakenSize(h, t.tid), AllocMalloc, env);
    forall key | key in h.allocs && key != AllocKey(t.pid, ret)
      ensures if slot.Some? && key == AllocKey(t.pid, slot.value) then Retired(h, h', key) else SameEntry(h, h', key)
    {
      OtherEntryKept(h2.allocs, h'.allocs, AllocKey(t.pid, ret), key);
      OtherEntryKept(h2.freed, h'.freed, AllocKey(t.pid, ret), key);
    }
  }

  lemma OtherEntryKept(m: Allocs, m': Allocs, own: AllocKey, key: AllocKey)
    requires m - {own} == m' - {own} && key != own
    ensures (key in m <==> key in m') && (key in m ==> m[key] == m'[key])
  {
    assert key in m <==> key in m - {own};
    assert key in m' <==> key in m' - {own};
    assert key in m ==> (m - {own})[key] == m[key];
    assert key in m' ==> (m' - {own})[key] == m'[key];
  }

  lemma ReturnKeepsOthers(h: Heap, t: Task, ret: u64, size: Option<u64>, family: AllocFamily, env: Env)
    ensures var h' := AllocReturn(h, t, ret, size, family, env);
      h'.allocs - {AllocKey(t.pid, ret)} == h.allocs - {AllocKey(t.pid, ret)}
      && h'.freed - {AllocKey(t.pid, ret)} == h.freed - {AllocKey(t.pid, ret)}
  {
  }

  /** In every run, the return of a realloc with a result retires the pointer in the thread's
      slot, whichever call put it there, and no other. */
  lemma ReallocRetiresSlot(ps: seq<Probe>, p: Probe)
    requires p.ReallocExit? && p.ret != 0
    ensures var h, h', slot := Run(EMPTY_HEAP, ps), Apply(Run(EMPTY_HEAP, ps), p), OldSlot(ps, p.task.tid);
      forall key :: key in h.allocs && key != AllocKey(p.task.pid, p.ret) ==>
        if slot.Some? && key == AllocKey(p.task.pid, slot.value) then Retired(h, h', key) else SameEntry(h, h', key)
  {
    OldSlotIsPending(ps, p.task.tid);
    ReallocReturnRetires(Run(EMPTY_HEAP, ps), p.task, p.ret, p.env, OldSlot(ps, p.task.tid));
  }

  /** The realloc that returns retires its own pointer exactly when that is still in the slot,
      as it is if nothing returned inside it; and it leaves every other live entry alone
      exactly when the slot holds no other live pointer. */
  lemma ReallocRetiresOwnPointerIff(ps: seq<Probe>, p: Probe, oldPtr: u64, size: u64)
    requires p.ReallocExit? && p.ret != 0
    requires var ph := PhaseOf(ps, p.task.tid); ph.Within? && ph.calls != [] && Innermost(ph) == Realloc(oldPtr, size)
    ensures var h, h', slot := Run(EMPTY_HEAP, ps), Apply(Run(EMPTY_HEAP, ps), p), OldSlot(ps, p.task.tid);
      var own, landed := AllocKey(p.task.pid, oldPtr), AllocKey(p.task.pid, p.ret);
      && (PhaseOf(ps, p.task.tid).intact && oldPtr != 0 ==> slot == Some(oldPtr))
      && (own in h.allocs && own != landed ==> (Retired(h, h', own) <==> slot == Some(oldPtr)))
      && ((forall key :: key in h.allocs && key != own && key != landed ==> SameEntry(h, h', key)) <==>
            slot.None? || slot.value == oldPtr || slot.value == p.ret || AllocKey(p.task.pid, slot.value) !in h.allocs)
  {
    var slot := OldSlot(ps, p.task.tid);
    OwnEntryArrives(ps, p.task.tid);
    OldSlotIsPending(ps, p.task.tid);
    ReallocRetiresSlot(ps, p);
    var h := Run(EMPTY_HEAP, ps);
    if slot.Some? && slot.value != oldPtr && slot.value != p.ret && AllocKey(p.task.pid, slot.value) in h.allocs {
      assert Retired(h, Apply(h, p), AllocKey(p.task.pid, slot.value));
    }
  }

  /** After any run: a realloc of a null pointer entered right inside one of a live pointer
      retires that pointer when it returns. */
  lemma NestedReallocTakesOuterPointer(ps: seq<Probe>, t: Task, oldPtr: u64, size: u64, ret: u64, env: Env)
    requires oldPtr != 0 && ret != 0 && ret != oldPtr && AllocKey(t.pid, oldPtr) in Run(EMPTY_HEAP, ps).allocs
    ensures var entered := ps + [Enter(t, Realloc(oldPtr, size))] + [Enter(t, Realloc(0, size))];
      Retired(Run(EMPTY_HEAP, entered), Run(EMPTY_HEAP, entered + [ReallocExit(t, ret, env)]), AllocKey(t.pid, oldPtr))
  {
    var outer, inner := Enter(t, Realloc(oldPtr, size)), Enter(t, Realloc(0, size));
    SlotStep(ps, outer, t.tid);
    SlotStep(ps + [outer], inner, t.tid);
    EntryKeepsAllocs(ps, outer);
    EntryKeepsAllocs(ps + [outer], inner);
    RunAppend(ps + [outer] + [inner], ReallocExit(t, ret, env));
    ReallocRetiresSlot(ps + [outer] + [inner], ReallocExit(t, ret, env));
  }

  lemma SlotStep(ps: seq<Probe>, p: Probe, tid: u32)
    ensures OldSlot(ps + [p], tid) ==
      if p.Enter? && p.task.tid == tid && ReallocArg(p.call) != 0 then Some(ReallocArg(p.call))
      else if p.ReallocExit? && p.task.tid == tid then None
      else OldSlot(ps, tid)
  {
    assert (ps + [p])[..|ps|] == ps;
  }

  lemma EntryKeepsAllocs(ps: seq<Probe>, p: Probe)
    requires p.Enter?
    ensures Run(EMPTY_HEAP, ps + [p]).allocs == Run(EMPTY_HEAP, ps).allocs
  {
    RunAppend(ps, p);
  }

  /** A realloc returns inside another, and with it the slot is empty. */
  function InnerRealloc(ps: seq<Probe>, t: Task, oldPtr: u64, innerPtr: u64, size: u64, ret: u64, env: Env): seq<Probe> {
    ps + [Enter(t, Realloc(oldPtr, size))] + [Enter(t, Realloc(innerPtr, size))] + [ReallocExit(t, ret, env)]
  }

  /** After any run: once a realloc of another pointer has returned inside a realloc of a live
      pointer, neither a realloc of a null pointer inside it nor its own return retires it. */
  lemma ReturnedReallocSparesOuterPointer(ps: seq<Probe>, t: Task, oldPtr: u64, innerPtr: u64, size: u64,
                                          ret: u64, ret2: u64, ret3: u64, env: Env)
    requires AllocKey(t.pid, oldPtr) in Run(EMPTY_HEAP, ps).allocs && oldPtr != innerPtr && innerPtr != 0
    requires ret != 0 && ret2 != 0 && ret3 != 0 && oldPtr != ret && oldPtr != ret2 && oldPtr != ret3
    ensures var inside := InnerRealloc(ps, t, oldPtr, innerPtr, size, ret, env) + [Enter(t, Realloc(0, size))];
      var after := inside + [ReallocExit(t, ret2, env)] + [ReallocExit(t, ret3, env)];
      AllocKey(t.pid, oldPtr) in Run(EMPTY_HEAP, after).allocs
  {
    var s1 := ps + [Enter(t, Realloc(oldPtr, size))];
    var s2 := s1 + [Enter(t, Realloc(innerPtr, size))];
    var s3 := s2 + [ReallocExit(t, ret, env)];
    var s4 := s3 + [Enter(t, Realloc(0, size))];
    var s5 := s4 + [ReallocExit(t, ret2, env)];
    EntryKeepsAllocs(ps, Enter(t, Realloc(oldPtr, size)));
    EntryKeepsAllocs(s1, Enter(t, Realloc(innerPtr, size)));
    SlotStep(s1, Enter(t, Realloc(innerPtr, size)), t.tid);
    ReturnSpares(s2, ReallocExit(t, ret, env), oldPtr);
    EntryKeepsAllocs(s3, Enter(t, Realloc(0, size)));
    SlotStep(s3, Enter(t, Realloc(0, size)), t.tid);
    ReturnSpares(s4, ReallocExit(t, ret2, env), oldPtr);
    ReturnSpares(s5, ReallocExit(t, ret3, env), oldPtr);
  }

  /** A return of realloc spares a live pointer that is not in the slot, and empties the slot. */
  lemma ReturnSpares(ps: seq<Probe>, p: Probe, ptr: u64)
    requires p.ReallocExit? && p.ret != 0 && p.ret != ptr && OldSlot(ps, p.task.tid) != Some(ptr)
    requires AllocKey(p.task.pid, ptr) in Run(EMPTY_HEAP, ps).allocs
    ensures AllocKey(p.task.pid, ptr) in Run(EMPTY_HEAP, ps + [p]).allocs
    ensures OldSlot(ps + [p], p.task.tid) == None
  {
    RunAppend(ps, p);
    SlotStep(ps, p, p.task.tid);
    ReallocRetiresSlot(ps, p);
    assert SameEntry(Run(EMPTY_HEAP, ps), Apply(Run(EMPTY_HEAP, ps), p), AllocKey(p.task.pid, ptr));
  }

  /** Nesting is where the single slot per thread fails: the malloc inside operator new
      takes the size, and the new itself is tracked with size zero, outside the index. */
  lemma NestedNewLosesSize(h: Heap, t: Task, ptr: u64, size: u64, env: Env)
    requires ptr != 0 && env.stateOk
    ensures var entered := Apply(Apply(h, Enter(t, Sized(size))), Enter(t, Sized(size)));
      var inner := Apply(entered, AllocExit(t, ptr, AllocMalloc, env));
      var outer := Apply(inner, AllocExit(t, ptr, AllocNew, env));
      var key := AllocKey(t.pid, ptr);
      && key in outer.allocs && outer.allocs[key].size == 0 && outer.allocs[key].family == AllocNew
      && Span(key, outer.allocs[key]) == {}
  {
    var entered := Apply(Apply(h, Enter(t, Sized(size))), Enter(t, Sized(size)));
    var inner := Apply(entered, AllocExit(t, ptr, AllocMalloc, env));
    AllocExitTakesOwn(entered, t, ptr, AllocMalloc, env);
    SizelessReturn(inner, t, ptr, env);
  }

  lemma SizelessReturn(h: Heap, t: Task, ptr: u64, env: Env)
    requires ptr != 0 && env.stateOk && t.tid !in h.pending
    ensures var h' := Apply(h, AllocExit(t, ptr, AllocNew, env));
      var key := AllocKey(t.pid, ptr);
      && key in h'.allocs && h'.allocs[key].size == 0 && h'.allocs[key].family == AllocNew
      && Span(key, h'.allocs[key]) == {}
  {
  }
}
