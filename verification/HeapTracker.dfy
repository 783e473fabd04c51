/** The allocation side of the heap tracker: the value of its maps, the effect of
    every probe on that value, and the class whose handlers update the maps in place. */
module HeapTracker {
  import opened Words
  import opened RangeIndex
  import opened Sentinel
  import IndexInvariants

  /** Free verdicts, carried in the errno field of a Free event. */
  datatype FreeStatus = FreeOk | FreeDouble | FreeInvalid | FreeMismatch

  function StatusCode(s: FreeStatus): nat {
    match s case FreeOk => 0 case FreeDouble => 1 case FreeInvalid => 2 case FreeMismatch => 3
  }

  function AllocCode(f: AllocFamily): u32 {
    match f case AllocUnknown => 0 case AllocMalloc => 1 case AllocNew => 2 case AllocNewArray => 3
  }

  function DeallocCode(f: DeallocFamily): nat {
    match f case DeallocUnknown => 0 case DeallocFree => 1 case DeallocDelete => 2 case DeallocDeleteArray => 3
  }

  predicate FamilyMatches(a: AllocFamily, d: DeallocFamily) {
    match a
    case AllocMalloc => d == DeallocFree
    case AllocNew => d == DeallocDelete
    case AllocNewArray => d == DeallocDeleteArray
    case AllocUnknown => true
  }

  predicate CppRelease(d: DeallocFamily) {
    d == DeallocDelete || d == DeallocDeleteArray
  }

  /** Kernel answers a handler depends on, and the opaque id of its user stack. */
  datatype Env = Env(stateOk: bool, ringOk: bool, stack: int)

  const OK: Env := Env(true, true, 0)

  /** Arguments of an allocator entry. For strdup, `len` is what reading at most 256
      bytes of the source string returned. */
  datatype Call =
    | Sized(size: u64)
    | Calloc(nmemb: u64, size: u64)
    | Realloc(oldPtr: u64, size: u64)
    | Memalign(slot: u64, size: u64)
    | Strdup(src: u64, len: int)

  function RequestedSize(c: Call): u64 {
    match c
    case Sized(size) => size
    case Calloc(nmemb, size) => if nmemb * size >= TWO64 then 0 else nmemb * size
    case Realloc(_, size) => size
    case Memalign(_, size) => size
    case Strdup(src, len) => if src == 0 then 0 else if len <= 0 || len >= 256 then U64_MAX else len
  }

  function Encode(size: u64): u64 {
    if size == U64_MAX then U64_MAX else size + 1
  }

  function Decode(enc: u64): u64 {
    if enc == U64_MAX then U64_MAX else Wrap64(enc - 1)
  }

  datatype Probe =
    | Enter(task: Task, call: Call)
    | AllocExit(task: Task, ret: u64, family: AllocFamily, env: Env)
    | ReallocExit(task: Task, ret: u64, env: Env)
    | MemalignExit(task: Task, rc: int, readOk: bool, stored: u64, env: Env)
    | Release(task: Task, ptr: u64, dealloc: DeallocFamily, env: Env)
    | Outside(op: Op)

  datatype Heap = Heap(
    allocs: Allocs, freed: Allocs, ranges: Ranges,
    pending: map<u32, u64>, reallocOld: map<u32, u64>, outPtr: map<u32, u64>, chan: Channel)

  const EMPTY_HEAP: Heap := Heap(map[], map[], map[], map[], map[], map[], EMPTY_CHANNEL)

  // ----- the effect of each probe on the maps -----

  function TakenSize(h: Heap, tid: u32): Option<u64> {
    if tid in h.pending then Some(Decode(h.pending[tid])) else None
  }

  function SizeOr0(size: Option<u64>): u64 {
    if size.Some? then size.value else 0
  }

  /** `allocs` gains the entry, `freed` loses it, and the index follows. */
  function Track(h: Heap, key: AllocKey, info: AllocInfo): Heap {
    var ranges := if key in h.allocs then Unindexed(h.ranges, key, h.allocs[key]) else h.ranges;
    h.(freed := h.freed - {key}, allocs := h.allocs[key := info], ranges := Indexed(ranges, key, info))
  }

  function Untrack(h: Heap, key: AllocKey, d: DeallocFamily): Heap
    requires key in h.allocs
  {
    h.(allocs := h.allocs - {key},
       freed := h.freed[key := h.allocs[key].(dealloc := d)],
       ranges := Unindexed(h.ranges, key, h.allocs[key]))
  }

  function MarkFreed(h: Heap, key: AllocKey): Heap {
    if key in h.allocs then Untrack(h, key, DeallocFree) else h
  }

  function AllocEvent(t: Task, ret: u64, size: Option<u64>, stack: int): Event {
    var len := Saturate32(SizeOr0(size));
    BlankEvent(t).(etype := Malloc, addr := ret, stackId := stack, len := len, allocSize := len, allocBase := ret)
  }

  predicate Tracks(size: Option<u64>, family: AllocFamily) {
    size.Some? || family != AllocMalloc
  }

  predicate StateFound(h: Heap, pid: u32, env: Env) {
    pid in h.chan.states || env.stateOk
  }

  /** The channel after an allocation return: state created, armed if tracked, posted. */
  function ReturnChannel(ch: Channel, t: Task, ret: u64, size: Option<u64>, family: AllocFamily, env: Env): Channel {
    var created := ApplyOp(ch, Create(t.pid, env.stateOk));
    var armed := if Tracks(size, family) then ApplyOp(created, Arm(t.pid)) else created;
    ApplyOp(armed, Post(t, env.ringOk, AllocEvent(t, ret, size, env.stack)))
  }

  function ReturnedInfo(size: Option<u64>, family: AllocFamily, env: Env): AllocInfo {
    AllocInfo(SizeOr0(size), env.stack, family, DeallocUnknown)
  }

  function AllocReturn(h: Heap, t: Task, ret: u64, size: Option<u64>, family: AllocFamily, env: Env): Heap {
    if ret == 0 || !StateFound(h, t.pid, env) then h
    else
      var h1 := if Tracks(size, family) then Track(h, AllocKey(t.pid, ret), ReturnedInfo(size, family, env)) else h;
      h1.(chan := ReturnChannel(h.chan, t, ret, size, family, env))
  }

  function Verdict(h: Heap, key: AllocKey, d: DeallocFamily): FreeStatus {
    if key in h.allocs then
      if FamilyMatches(h.allocs[key].family, d) then FreeOk else FreeMismatch
    else if key in h.freed then FreeDouble
    else FreeInvalid
  }

  function FreeEvent(h: Heap, t: Task, ptr: u64, d: DeallocFamily, stack: int): Event {
    var key := AllocKey(t.pid, ptr);
    var known := if key in h.allocs then Some(h.allocs[key]) else if key in h.freed then Some(h.freed[key]) else None;
    var e := BlankEvent(t).(
      etype := Free, addr := ptr, stackId := stack,
      errno := StatusCode(Verdict(h, key, d)), bytesRet := DeallocCode(d));
    if known.Some? then
      e.(allocSize := Saturate32(known.value.size), len := AllocCode(known.value.family),
         siteId := SiteOf(known.value.stack))
    else e
  }

  /** A free or second delete of storage already released by operator delete. */
  predicate Silent(h: Heap, key: AllocKey) {
    key !in h.allocs && key in h.freed && CppRelease(h.freed[key].dealloc)
  }

  /** A verdict is posted unless the process has no state, or is not armed and the
      release is benign. */
  predicate Posts(h: Heap, t: Task, ptr: u64, d: DeallocFamily, env: Env) {
    var ch := ApplyOp(h.chan, Create(t.pid, env.stateOk));
    t.pid in ch.states && (Armed(ch, t.pid) || Verdict(h, AllocKey(t.pid, ptr), d) != FreeOk)
  }

  function ReportedChannel(h: Heap, t: Task, ptr: u64, d: DeallocFamily, env: Env): Channel {
    var ch := ApplyOp(h.chan, Create(t.pid, env.stateOk));
    if Posts(h, t, ptr, d, env) then ApplyOp(ch, Post(t, env.ringOk, FreeEvent(h, t, ptr, d, env.stack))) else ch
  }

  function Deallocate(h: Heap, t: Task, ptr: u64, d: DeallocFamily, env: Env): Heap {
    var key := AllocKey(t.pid, ptr);
    if ptr == 0 then h
    else if Silent(h, key) then
      if d == DeallocFree then h.(freed := h.freed - {key}) else h
    else
      var h1 := h.(chan := ReportedChannel(h, t, ptr, d, env));
      if Posts(h, t, ptr, d, env) && env.ringOk && key in h.allocs then Untrack(h1, key, d) else h1
  }

  function ReallocReturn(h: Heap, t: Task, ret: u64, env: Env): Heap {
    var size := TakenSize(h, t.tid);
    var oldPtr := if t.tid in h.reallocOld then h.reallocOld[t.tid] else 0;
    var h1 := h.(pending := h.pending - {t.tid}, reallocOld := h.reallocOld - {t.tid});
    if ret == 0 then
      if size == Some(0) && oldPtr != 0 then MarkFreed(h1, AllocKey(t.pid, oldPtr)) else h1
    else
      var h2 := if oldPtr != 0 && oldPtr != ret then MarkFreed(h1, AllocKey(t.pid, oldPtr)) else h1;
      AllocReturn(h2, t, ret, size, AllocMalloc, env)
  }

  function MemalignReturn(h: Heap, t: Task, rc: int, readOk: bool, stored: u64, env: Env): Heap {
    var size := TakenSize(h, t.tid);
    var slot := if t.tid in h.outPtr then h.outPtr[t.tid] else 0;
    var h1 := h.(pending := h.pending - {t.tid}, outPtr := h.outPtr - {t.tid});
    if rc != 0 || slot == 0 || !readOk then h1
    else AllocReturn(h1, t, stored, size, AllocMalloc, env)
  }

  function Remember(h: Heap, t: Task, c: Call): Heap {
    var h1 := h.(pending := h.pending[t.tid := Encode(RequestedSize(c))]);
    match c
    case Realloc(oldPtr, _) => if oldPtr != 0 then h1.(reallocOld := h.reallocOld[t.tid := oldPtr]) else h1
    case Memalign(slot, _) => h1.(outPtr := h.outPtr[t.tid := slot])
    case _ => h1
  }

  function Apply(h: Heap, p: Probe): Heap {
    match p
    case Enter(t, c) => Remember(h, t, c)
    case AllocExit(t, ret, family, env) =>
      AllocReturn(h.(pending := h.pending - {t.tid}), t, ret, TakenSize(h, t.tid), family, env)
    case ReallocExit(t, ret, env) => ReallocReturn(h, t, ret, env)
    case MemalignExit(t, rc, readOk, stored, env) => MemalignReturn(h, t, rc, readOk, stored, env)
    case Release(t, ptr, d, env) => Deallocate(h, t, ptr, d, env)
    case Outside(op) => h.(chan := ApplyOp(h.chan, op))
  }

  /** The value after a run of probes, in the order they fired on any thread. */
  function Run(h: Heap, ps: seq<Probe>): Heap {
    if ps == [] then h else Apply(Run(h, ps[..|ps| - 1]), ps[|ps| - 1])
  }

  lemma RunAppend(ps: seq<Probe>, p: Probe)
    ensures Run(EMPTY_HEAP, ps + [p]) == Apply(Run(EMPTY_HEAP, ps), p)
  {
    assert (ps + [p])[..|ps|] == ps;
  }

  /** What other programs did to the channel, as probes. */
  function Outsides(ops: seq<Op>): seq<Probe> {
    seq(|ops|, i requires 0 <= i < |ops| => Outside(ops[i]))
  }

  lemma {:induction false} RunOutsides(ps: seq<Probe>, ops: seq<Op>)
    ensures var h := Run(EMPTY_HEAP, ps);
      Run(EMPTY_HEAP, ps + Outsides(ops)) == h.(chan := ApplyOps(h.chan, ops))
  {
    if ops == [] {
      assert ps + Outsides(ops) == ps;
    } else {
      var before := ops[..|ops| - 1];
      RunOutsides(ps, before);
      RunAppend(ps + Outsides(before), Outside(ops[|ops| - 1]));
      assert ps + Outsides(ops) == ps + Outsides(before) + [Outside(ops[|ops| - 1])];
    }
  }

  lemma OutsidesAppend(trace: seq<Probe>, a: seq<Op>, b: seq<Op>)
    ensures trace + Outsides(a + b) == trace + Outsides(a) + Outsides(b)
  {
  }

  lemma NothingSince(trace: seq<Probe>, log: seq<Op>)
    ensures trace + Outsides(log[|log|..]) == trace
  {
    assert log[|log|..] == [] && Outsides([]) == [];
  }

  /** The run so far, followed by what others did since. */
  lemma RunGoesOn(h: Heap, trace: seq<Probe>, seen: nat, log: seq<Op>, log': seq<Op>)
    requires seen <= |log| && log <= log' && h.chan == ApplyOps(EMPTY_CHANNEL, log)
    requires h == Run(EMPTY_HEAP, trace + Outsides(log[seen..]))
    ensures trace + Outsides(log'[seen..]) == trace + Outsides(log[seen..]) + Outsides(log'[|log|..])
    ensures Run(EMPTY_HEAP, trace + Outsides(log'[seen..])) == h.(chan := ApplyOps(EMPTY_CHANNEL, log'))
  {
    LogGoesOn(log, log', seen);
    OutsidesAppend(trace, log[seen..], log'[|log|..]);
    RunOutsides(trace + Outsides(log[seen..]), log'[|log|..]);
  }

  // ----- the invariant -----

  ghost predicate Inv(h: Heap) {
    && h.allocs.Keys !! h.freed.Keys
    && IndexInvariants.Addressed(h.allocs)
    && (forall key :: key in h.allocs ==> Armed(h.chan, key.pid))
    && IndexInvariants.Sound(h.allocs, h.ranges)
  }

  lemma OpKeepsArmed(ch: Channel, op: Op, pid: u32)
    requires Armed(ch, pid)
    ensures Armed(ApplyOp(ch, op), pid)
  {
  }

  lemma ChannelOpKeepsInv(h: Heap, op: Op)
    requires Inv(h)
    ensures Inv(h.(chan := ApplyOp(h.chan, op)))
  {
    forall key | key in h.allocs ensures Armed(ApplyOp(h.chan, op), key.pid) {
      OpKeepsArmed(h.chan, op, key.pid);
    }
  }

  lemma TrackKeepsInv(h: Heap, key: AllocKey, info: AllocInfo)
    requires Inv(h) && key.addr != 0 && Armed(h.chan, key.pid)
    ensures Inv(Track(h, key, info))
  {
    var ranges := if key in h.allocs then Unindexed(h.ranges, key, h.allocs[key]) else h.ranges;
    if key in h.allocs {
      IndexInvariants.RemovalKeepsIndex(h.allocs, h.ranges, key);
      assert (h.allocs - {key})[key := info] == h.allocs[key := info];
    } else {
      assert h.allocs - {key} == h.allocs;
    }
    IndexInvariants.InsertionKeepsSound(h.allocs - {key}, ranges, key, info);
    assert (h.allocs - {key})[key := info] == h.allocs[key := info];
  }

  lemma UntrackKeepsInv(h: Heap, key: AllocKey, d: DeallocFamily)
    requires Inv(h) && key in h.allocs
    ensures Inv(Untrack(h, key, d))
  {
    IndexInvariants.RemovalKeepsIndex(h.allocs, h.ranges, key);
  }

  lemma ReturnChannelArms(ch: Channel, t: Task, ret: u64, size: Option<u64>, family: AllocFamily, env: Env, pid: u32)
    requires t.pid in ch.states || env.stateOk
    ensures Armed(ch, pid) ==> Armed(ReturnChannel(ch, t, ret, size, family, env), pid)
    ensures Tracks(size, family) ==> Armed(ReturnChannel(ch, t, ret, size, family, env), t.pid)
  {
  }

  lemma AllocReturnKeepsInv(h: Heap, t: Task, ret: u64, size: Option<u64>, family: AllocFamily, env: Env)
    requires Inv(h)
    ensures Inv(AllocReturn(h, t, ret, size, family, env))
  {
    if ret != 0 && StateFound(h, t.pid, env) {
      var h0 := h.(chan := ReturnChannel(h.chan, t, ret, size, family, env));
      forall key | key in h.allocs ensures Armed(h0.chan, key.pid) {
        ReturnChannelArms(h.chan, t, ret, size, family, env, key.pid);
      }
      if Tracks(size, family) {
        ReturnChannelArms(h.chan, t, ret, size, family, env, t.pid);
        TrackKeepsInv(h0, AllocKey(t.pid, ret), ReturnedInfo(size, family, env));
      }
    }
  }

  lemma DeallocateKeepsInv(h: Heap, t: Task, ptr: u64, d: DeallocFamily, env: Env)
    requires Inv(h)
    ensures Inv(Deallocate(h, t, ptr, d, env))
  {
    var key := AllocKey(t.pid, ptr);
    if ptr != 0 && !Silent(h, key) {
      ChannelOpKeepsInv(h, Create(t.pid, env.stateOk));
      var h0 := h.(chan := ApplyOp(h.chan, Create(t.pid, env.stateOk)));
      ChannelOpKeepsInv(h0, Post(t, env.ringOk, FreeEvent(h, t, ptr, d, env.stack)));
      if key in h.allocs {
        UntrackKeepsInv(h.(chan := ReportedChannel(h, t, ptr, d, env)), key, d);
      }
    }
  }

  lemma ReallocReturnKeepsInv(h: Heap, t: Task, ret: u64, env: Env)
    requires Inv(h)
    ensures Inv(ReallocReturn(h, t, ret, env))
  {
    var oldPtr := if t.tid in h.reallocOld then h.reallocOld[t.tid] else 0;
    var h1 := h.(pending := h.pending - {t.tid}, reallocOld := h.reallocOld - {t.tid});
    var key := AllocKey(t.pid, oldPtr);
    if key in h.allocs {
      UntrackKeepsInv(h1, key, DeallocFree);
    }
    var h2 := if oldPtr != 0 && oldPtr != ret then MarkFreed(h1, key) else h1;
    if ret != 0 {
      AllocReturnKeepsInv(h2, t, ret, TakenSize(h, t.tid), AllocMalloc, env);
    }
  }

  lemma MemalignReturnKeepsInv(h: Heap, t: Task, rc: int, readOk: bool, stored: u64, env: Env)
    requires Inv(h)
    ensures Inv(MemalignReturn(h, t, rc, readOk, stored, env))
  {
    var h1 := h.(pending := h.pending - {t.tid}, outPtr := h.outPtr - {t.tid});
    AllocReturnKeepsInv(h1, t, stored, TakenSize(h, t.tid), AllocMalloc, env);
  }

  lemma EnterKeepsInv(h: Heap, t: Task, c: Call)
    requires Inv(h)
    ensures Inv(Remember(h, t, c))
  {
  }

  lemma AllocExitKeepsInv(h: Heap, t: Task, ret: u64, family: AllocFamily, env: Env)
    requires Inv(h)
    ensures Inv(Apply(h, AllocExit(t, ret, family, env)))
  {
    AllocReturnKeepsInv(h.(pending := h.pending - {t.tid}), t, ret, TakenSize(h, t.tid), family, env);
  }

  lemma ApplyKeepsInv(h: Heap, p: Probe)
    requires Inv(h)
    ensures Inv(Apply(h, p))
  {
    match p
    case Enter(t, c) => EnterKeepsInv(h, t, c);
    case AllocExit(t, ret, family, env) => AllocExitKeepsInv(h, t, ret, family, env);
    case ReallocExit(t, ret, env) => ReallocReturnKeepsInv(h, t, ret, env);
    case MemalignExit(t, rc, readOk, stored, env) => MemalignReturnKeepsInv(h, t, rc, readOk, stored, env);
    case Release(t, ptr, d, env) => DeallocateKeepsInv(h, t, ptr, d, env);
    case Outside(op) => ChannelOpKeepsInv(h, op);
  }

  /** In every reachable state, failed reservations included: the index is sound,
      no pointer is both live and freed, and a process with a live pointer is armed. */
  lemma {:induction false} ReachableInv(ps: seq<Probe>)
    ensures Inv(Run(EMPTY_HEAP, ps))
  {
    if ps != [] {
      ReachableInv(ps[..|ps| - 1]);
      ApplyKeepsInv(Run(EMPTY_HEAP, ps[..|ps| - 1]), ps[|ps| - 1]);
    }
  }
}
