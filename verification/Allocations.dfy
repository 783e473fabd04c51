/** What the return of each allocator call leaves behind, in numbers: the entry it tracks, the
    event it posts, and the returns that leave nothing. */
module Allocations {
  import opened Words
  import opened RangeIndex
  import opened Sentinel
  import opened HeapTracker
  import opened Handoff

  /** The thread is inside the call, and nothing has returned inside it. */
  predicate AtReturnOf(ps: seq<Probe>, p: Probe, c: Call)
    requires Answers(p, c)
  {
    var ph := PhaseOf(ps, p.task.tid);
    ph.Within? && ph.intact && ph.calls != [] && Innermost(ph) == c
  }

  /** In every run, the return of a call that hands out a pointer tracks it with the size the
      call asked for: the product for calloc, zero if that overflows; the length read for
      strdup, the unknown marker if none was read in full. The marker is 2^64-1, and a size
      of 2^64-2 reads as the marker. */
  lemma ReturnTracks(ps: seq<Probe>, p: Probe, c: Call)
    requires Answers(p, c) && Landing(p, c) != 0 && AtReturnOf(ps, p, c)
    requires p.task.pid in Run(EMPTY_HEAP, ps).chan.states || p.env.stateOk
    ensures var h := Apply(Run(EMPTY_HEAP, ps), p);
      var key := AllocKey(p.task.pid, Landing(p, c));
      && key in h.allocs && key !in h.freed
      && var info := h.allocs[key];
         && info.stack == p.env.stack && info.dealloc.DeallocUnknown?
         && info.family == (if p.AllocExit? then p.family else AllocMalloc)
         && match c
            case Sized(n) => info.size == if n == 0xFFFF_FFFF_FFFF_FFFE then 0xFFFF_FFFF_FFFF_FFFF else n
            case Realloc(_, n) => info.size == if n == 0xFFFF_FFFF_FFFF_FFFE then 0xFFFF_FFFF_FFFF_FFFF else n
            case Memalign(_, n) => info.size == if n == 0xFFFF_FFFF_FFFF_FFFE then 0xFFFF_FFFF_FFFF_FFFF else n
            case Calloc(n, m) =>
              info.size ==
                if n * m >= 0x1_0000_0000_0000_0000 then 0
                else if n * m == 0xFFFF_FFFF_FFFF_FFFE then 0xFFFF_FFFF_FFFF_FFFF
                else n * m
            case Strdup(src, len) =>
              info.size == if src == 0 then 0 else if 1 <= len <= 255 then len else 0xFFFF_FFFF_FFFF_FFFF
  {
    ReturnTracksRequestedSize(ps, p, c);
    ReturnIsPlain(ps, p, c);
    TrackedSize(ps, p, c);
  }

  lemma TrackedSize(ps: seq<Probe>, p: Probe, c: Call)
    requires Answers(p, c) && Landing(p, c) != 0 && AtReturnOf(ps, p, c)
    requires p.task.pid in Run(EMPTY_HEAP, ps).chan.states || p.env.stateOk
    ensures var h, key := Apply(Run(EMPTY_HEAP, ps), p), AllocKey(p.task.pid, Landing(p, c));
      key in h.allocs && h.allocs[key].size == if RequestedSize(c) == U64_MAX - 1 then U64_MAX else RequestedSize(c)
  {
    ReturnIsPlain(ps, p, c);
    CodecExactIff(RequestedSize(c));
  }

  /** A recorded return is the shared tail of all of them, on a value whose channel and other
      entries are those of the run. */
  lemma ReturnIsPlain(ps: seq<Probe>, p: Probe, c: Call)
    requires Answers(p, c) && Landing(p, c) != 0 && AtReturnOf(ps, p, c)
    ensures var size := Some(Decode(Encode(RequestedSize(c))));
      var h, h' := Run(EMPTY_HEAP, ps), Apply(Run(EMPTY_HEAP, ps), p);
      var family := if p.AllocExit? then p.family else AllocMalloc;
      var key := AllocKey(p.task.pid, Landing(p, c));
      && h'.chan == (if StateFound(h, p.task.pid, p.env)
                     then ReturnChannel(h.chan, p.task, Landing(p, c), size, family, p.env) else h.chan)
      && (StateFound(h, p.task.pid, p.env) ==> key in h'.allocs && h'.allocs[key] == ReturnedInfo(size, family, p.env))
  {
    OwnEntryArrives(ps, p.task.tid);
    var h, size := Run(EMPTY_HEAP, ps), Decode(Encode(RequestedSize(c)));
    assert TakenSize(h, p.task.tid) == Some(size);
    match p
    case AllocExit(t, ret, family, env) => TailOf(h.(pending := h.pending - {t.tid}), t, ret, size, family, env);
    case ReallocExit(t, ret, env) =>
      var h1 := h.(pending := h.pending - {t.tid}, reallocOld := h.reallocOld - {t.tid});
      var oldPtr := if t.tid in h.reallocOld then h.reallocOld[t.tid] else 0;
      var h2 := if oldPtr != 0 && oldPtr != ret then MarkFreed(h1, AllocKey(t.pid, oldPtr)) else h1;
      assert h2.chan == h.chan;
      TailOf(h2, t, ret, size, AllocMalloc, env);
    case MemalignExit(t, _, _, stored, env) =>
      TailOf(h.(pending := h.pending - {t.tid}, outPtr := h.outPtr - {t.tid}), t, stored, size, AllocMalloc, env);
  }

  lemma TailOf(h: Heap, t: Task, ret: u64, size: u64, family: AllocFamily, env: Env)
    requires ret != 0
    ensures var h', key := AllocReturn(h, t, ret, Some(size), family, env), AllocKey(t.pid, ret);
      && h'.chan == (if StateFound(h, t.pid, env) then ReturnChannel(h.chan, t, ret, Some(size), family, env) else h.chan)
      && (StateFound(h, t.pid, env) ==> key in h'.allocs && h'.allocs[key] == ReturnedInfo(Some(size), family, env))
  {
  }

  /** It posts one event with the pointer, the stack, and the tracked size cut at 2^32-1, and
      leaves the process armed. */
  lemma ReturnPosts(ps: seq<Probe>, p: Probe, c: Call)
    requires Answers(p, c) && Landing(p, c) != 0 && AtReturnOf(ps, p, c) && p.env.ringOk
    requires p.task.pid in Run(EMPTY_HEAP, ps).chan.states || p.env.stateOk
    ensures var ring, h' := Run(EMPTY_HEAP, ps).chan.ring, Apply(Run(EMPTY_HEAP, ps), p);
      var key := AllocKey(p.task.pid, Landing(p, c));
      && key in h'.allocs && Armed(h'.chan, p.task.pid)
      && |h'.chan.ring| == |ring| + 1 && h'.chan.ring[..|ring|] == ring
      && var e := h'.chan.ring[|ring|];
         && e.etype == Malloc && e.pid == p.task.pid && e.tid == p.task.tid
         && e.addr == Landing(p, c) == e.allocBase && e.stackId == p.env.stack
         && e.len == e.allocSize == Min(h'.allocs[key].size, 0xFFFF_FFFF) && e.allocOffset == 0
  {
    var h := Run(EMPTY_HEAP, ps);
    ReturnIsPlain(ps, p, c);
    var size := Some(Decode(Encode(RequestedSize(c))));
    var family := if p.AllocExit? then p.family else AllocMalloc;
    ReturnChannelPosts(h.chan, p.task, Landing(p, c), size, family, p.env);
  }

  lemma ReturnChannelPosts(ch: Channel, t: Task, ret: u64, size: Option<u64>, family: AllocFamily, env: Env)
    requires size.Some? && (t.pid in ch.states || env.stateOk) && env.ringOk
    ensures var ch' := ReturnChannel(ch, t, ret, size, family, env);
      && Armed(ch', t.pid) && |ch'.ring| == |ch.ring| + 1 && ch'.ring[..|ch.ring|] == ch.ring
      && Submitted(ch'.ring[|ch.ring|], t, AllocEvent(t, ret, size, env.stack))
  {
  }

  // ----- returns that track nothing -----

  /** The maps over pointers and the channel are as before. */
  predicate SameRecords(h: Heap, h': Heap) {
    h'.allocs == h.allocs && h'.freed == h.freed && h'.ranges == h.ranges && h'.chan == h.chan
  }

  /** A null result, a failed posix_memalign, one whose slot is null or cannot be read, and a
      process without state leave no record. */
  lemma EmptyReturnRecordsNothing(ps: seq<Probe>, p: Probe, c: Call)
    requires Answers(p, c) && AtReturnOf(ps, p, c) && !p.ReallocExit?
    requires
      || (p.AllocExit? && p.ret == 0)
      || (p.MemalignExit? && (p.rc != 0 || c.slot == 0 || !p.readOk || p.stored == 0))
      || (p.task.pid !in Run(EMPTY_HEAP, ps).chan.states && !p.env.stateOk)
    ensures SameRecords(Run(EMPTY_HEAP, ps), Apply(Run(EMPTY_HEAP, ps), p))
  {
    OwnEntryArrives(ps, p.task.tid);
  }

  /** A realloc to size zero that returns null has freed its pointer; one to any other size
      that returns null has failed and changed nothing. */
  lemma NullReallocFreesAtSizeZero(ps: seq<Probe>, p: Probe, oldPtr: u64, size: u64)
    requires p.ReallocExit? && p.ret == 0 && oldPtr != 0 && AtReturnOf(ps, p, Realloc(oldPtr, size))
    ensures var h, h', own := Run(EMPTY_HEAP, ps), Apply(Run(EMPTY_HEAP, ps), p), AllocKey(p.task.pid, oldPtr);
      && h'.chan == h.chan
      && (size != 0 || own !in h.allocs ==> SameRecords(h, h'))
      && (size == 0 && own in h.allocs ==> Retired(h, h', own))
      && forall key :: key in h.allocs && key != own ==> SameEntry(h, h', key)
  {
    OwnEntryArrives(ps, p.task.tid);
    CodecExactIff(size);
  }
}
