/** Free verdicts over whole runs: the tracker's answer for a pointer equals what that
    pointer's own history of allocations and releases says. */
module FreeHistory {
  import opened Words
  import opened RangeIndex
  import opened Sentinel
  import opened HeapTracker

  // ----- one pointer, seen alone -----

  /** What one probe does to one pointer. `recorded` is false when the event of a
      release could not be posted. */
  datatype Touch =
    | Untouched
    | Allocated(info: AllocInfo)
    | Moved                                    // given up by a realloc
    | Freed(dealloc: DeallocFamily, recorded: bool)

  datatype Fate = Unknown | Live(info: AllocInfo) | Gone(info: AllocInfo, dealloc: DeallocFamily)

  function Next(f: Fate, x: Touch): Fate {
    match x
    case Untouched => f
    case Allocated(info) => Live(info)
    case Moved => if f.Live? then Gone(f.info, DeallocFree) else f
    case Freed(d, recorded) =>
      match f
      case Unknown => Unknown
      case Live(info) => if recorded then Gone(info, d) else f
      case Gone(_, d0) => if CppRelease(d0) && d == DeallocFree then Unknown else f
  }

  function FateOf(xs: seq<Touch>): Fate {
    if xs == [] then Unknown else Next(FateOf(xs[..|xs| - 1]), xs[|xs| - 1])
  }

  /** The verdict on releasing the pointer now; none for the inner free of a delete. */
  function FateVerdict(f: Fate, d: DeallocFamily): Option<FreeStatus> {
    match f
    case Unknown => Some(FreeInvalid)
    case Live(info) => Some(if FamilyMatches(info.family, d) then FreeOk else FreeMismatch)
    case Gone(_, d0) => if CppRelease(d0) then None else Some(FreeDouble)
  }

  // ----- the tracker, projected to one pointer -----

  function Project(h: Heap, key: AllocKey): Fate {
    if key in h.allocs then Live(h.allocs[key].(dealloc := DeallocUnknown))
    else if key in h.freed then Gone(h.freed[key].(dealloc := DeallocUnknown), h.freed[key].dealloc)
    else Unknown
  }

  /** What an allocation return does to its pointer. */
  function AllocTouch(h: Heap, t: Task, ret: u64, size: Option<u64>, family: AllocFamily, env: Env, key: AllocKey)
    : Touch
  {
    if ret != 0 && StateFound(h, t.pid, env) && Tracks(size, family) && key == AllocKey(t.pid, ret) then
      Allocated(ReturnedInfo(size, family, env))
    else Untouched
  }

  function ReallocTouch(h: Heap, t: Task, ret: u64, env: Env, key: AllocKey): Touch {
    var oldPtr := if t.tid in h.reallocOld then h.reallocOld[t.tid] else 0;
    var size := TakenSize(h, t.tid);
    if oldPtr != 0 && key == AllocKey(t.pid, oldPtr) && oldPtr != ret && (ret != 0 || size == Some(0)) then Moved
    else AllocTouch(h, t, ret, size, AllocMalloc, env, key)
  }

  function TouchOf(h: Heap, p: Probe, key: AllocKey): Touch {
    match p
    case Enter(_, _) => Untouched
    case AllocExit(t, ret, family, env) => AllocTouch(h, t, ret, TakenSize(h, t.tid), family, env, key)
    case ReallocExit(t, ret, env) => ReallocTouch(h, t, ret, env, key)
    case MemalignExit(t, rc, readOk, stored, env) =>
      if rc == 0 && readOk && t.tid in h.outPtr && h.outPtr[t.tid] != 0 then
        AllocTouch(h, t, stored, TakenSize(h, t.tid), AllocMalloc, env, key)
      else Untouched
    case Release(t, ptr, d, env) =>
      if ptr != 0 && key == AllocKey(t.pid, ptr) then Freed(d, StateFound(h, t.pid, env) && env.ringOk) else Untouched
    case Outside(_) => Untouched
  }

  function History(ps: seq<Probe>, key: AllocKey): seq<Touch> {
    if ps == [] then []
    else History(ps[..|ps| - 1], key) + [TouchOf(Run(EMPTY_HEAP, ps[..|ps| - 1]), ps[|ps| - 1], key)]
  }

  lemma TrackProjects(h: Heap, made: AllocKey, info: AllocInfo, key: AllocKey)
    requires info.dealloc == DeallocUnknown
    ensures Project(Track(h, made, info), key) == if key == made then Live(info) else Project(h, key)
  {
  }

  lemma AllocReturnProjects(h: Heap, t: Task, ret: u64, size: Option<u64>, family: AllocFamily, env: Env, key: AllocKey)
    ensures Project(AllocReturn(h, t, ret, size, family, env), key) ==
      Next(Project(h, key), AllocTouch(h, t, ret, size, family, env, key))
  {
    TrackProjects(h, AllocKey(t.pid, ret), ReturnedInfo(size, family, env), key);
  }

  lemma MarkFreedProjects(h: Heap, gone: AllocKey, key: AllocKey)
    requires h.allocs.Keys !! h.freed.Keys
    ensures Project(MarkFreed(h, gone), key) == if key == gone then Next(Project(h, key), Moved) else Project(h, key)
  {
  }

  lemma ReallocReturnProjects(h: Heap, t: Task, ret: u64, env: Env, key: AllocKey)
    requires h.allocs.Keys !! h.freed.Keys
    ensures Project(ReallocReturn(h, t, ret, env), key) == Next(Project(h, key), ReallocTouch(h, t, ret, env, key))
  {
    var oldPtr := if t.tid in h.reallocOld then h.reallocOld[t.tid] else 0;
    var h1 := h.(pending := h.pending - {t.tid}, reallocOld := h.reallocOld - {t.tid});
    var size := TakenSize(h, t.tid);
    MarkFreedProjects(h1, AllocKey(t.pid, oldPtr), key);
    assert Project(h1, key) == Project(h, key);
    if ret != 0 {
      var h2 := if oldPtr != 0 && oldPtr != ret then MarkFreed(h1, AllocKey(t.pid, oldPtr)) else h1;
      AllocReturnProjects(h2, t, ret, size, AllocMalloc, env, key);
      assert AllocTouch(h2, t, ret, size, AllocMalloc, env, key) == AllocTouch(h, t, ret, size, AllocMalloc, env, key);
    }
  }

  lemma ReleaseKeepsOthers(h: Heap, t: Task, ptr: u64, d: DeallocFamily, env: Env, key: AllocKey)
    requires key != AllocKey(t.pid, ptr)
    ensures Project(Deallocate(h, t, ptr, d, env), key) == Project(h, key)
  {
  }

  lemma UntrackProjects(h: Heap, key: AllocKey, d: DeallocFamily)
    requires key in h.allocs
    ensures Project(Untrack(h, key, d), key) == Gone(h.allocs[key].(dealloc := DeallocUnknown), d)
  {
  }

  lemma DeadReleaseProjects(h: Heap, t: Task, ptr: u64, d: DeallocFamily, env: Env)
    requires ptr != 0 && AllocKey(t.pid, ptr) !in h.allocs
    ensures var key := AllocKey(t.pid, ptr);
      Project(Deallocate(h, t, ptr, d, env), key) ==
        if Silent(h, key) && d == DeallocFree then Unknown else Project(h, key)
  {
  }

  lemma ReleaseProjects(h: Heap, t: Task, ptr: u64, d: DeallocFamily, env: Env, key: AllocKey)
    requires Inv(h)
    ensures Project(Deallocate(h, t, ptr, d, env), key) ==
      Next(Project(h, key), TouchOf(h, Release(t, ptr, d, env), key))
  {
    if key != AllocKey(t.pid, ptr) {
      ReleaseKeepsOthers(h, t, ptr, d, env, key);
    } else if ptr != 0 && key !in h.allocs {
      DeadReleaseProjects(h, t, ptr, d, env);
    } else if ptr != 0 {
      LivePosts(h, t, ptr, d, env);
      UntrackProjects(h.(chan := ReportedChannel(h, t, ptr, d, env)), key, d);
    }
  }

  lemma LivePosts(h: Heap, t: Task, ptr: u64, d: DeallocFamily, env: Env)
    requires Inv(h) && AllocKey(t.pid, ptr) in h.allocs
    ensures StateFound(h, t.pid, env) && Posts(h, t, ptr, d, env)
  {
    assert Armed(h.chan, t.pid);
    OpKeepsArmed(h.chan, Create(t.pid, env.stateOk), t.pid);
  }

  lemma ReturnsProject(h: Heap, p: Probe, key: AllocKey)
    requires p.AllocExit? || p.MemalignExit?
    ensures Project(Apply(h, p), key) == Next(Project(h, key), TouchOf(h, p, key))
  {
    match p
    case AllocExit(t, ret, family, env) =>
      AllocReturnProjects(h.(pending := h.pending - {t.tid}), t, ret, TakenSize(h, t.tid), family, env, key);
    case MemalignExit(t, rc, readOk, stored, env) =>
      var h1 := h.(pending := h.pending - {t.tid}, outPtr := h.outPtr - {t.tid});
      AllocReturnProjects(h1, t, stored, TakenSize(h, t.tid), AllocMalloc, env, key);
  }

  lemma StepProjects(h: Heap, p: Probe, key: AllocKey)
    requires Inv(h)
    ensures Project(Apply(h, p), key) == Next(Project(h, key), TouchOf(h, p, key))
  {
    match p
    case Enter(_, _) =>
    case AllocExit(_, _, _, _) => ReturnsProject(h, p, key);
    case MemalignExit(_, _, _, _, _) => ReturnsProject(h, p, key);
    case ReallocExit(t, ret, env) => ReallocReturnProjects(h, t, ret, env, key);
    case Release(t, ptr, d, env) => ReleaseProjects(h, t, ptr, d, env, key);
    case Outside(_) =>
  }

  /** The maps forget nothing about a pointer but what its own history says. */
  lemma {:induction false} TrackerRefinesHistory(ps: seq<Probe>, key: AllocKey)
    ensures Project(Run(EMPTY_HEAP, ps), key) == FateOf(History(ps, key))
  {
    if ps != [] {
      var before := ps[..|ps| - 1];
      TrackerRefinesHistory(before, key);
      ReachableInv(before);
      StepProjects(Run(EMPTY_HEAP, before), ps[|ps| - 1], key);
      var xs := History(ps, key);
      assert xs[..|xs| - 1] == History(before, key);
    }
  }

  lemma ProjectedVerdict(h: Heap, key: AllocKey, d: DeallocFamily)
    requires Inv(h)
    ensures FateVerdict(Project(h, key), d) == if Silent(h, key) then None else Some(Verdict(h, key, d))
    ensures !Silent(h, key) && Verdict(h, key, d) == FreeOk ==> Armed(h.chan, key.pid)
  {
  }

  /** The ring after a release whose history verdict is `verdict`: one more event that
      carries it, or nothing new. */
  ghost predicate PostsVerdict(h: Heap, h': Heap, t: Task, body: Event, verdict: Option<FreeStatus>, posted: bool) {
    var ring, ring' := h.chan.ring, h'.chan.ring;
    if verdict.Some? && posted then
      && |ring'| == |ring| + 1 && ring'[..|ring|] == ring
      && Submitted(ring'[|ring|], t, body) && ring'[|ring|].errno == StatusCode(verdict.value)
    else ring' == ring
  }

  lemma ReleaseChannel(h: Heap, t: Task, ptr: u64, d: DeallocFamily, env: Env)
    requires ptr != 0
    ensures Deallocate(h, t, ptr, d, env).chan ==
      if Silent(h, AllocKey(t.pid, ptr)) then h.chan else ReportedChannel(h, t, ptr, d, env)
  {
  }

  lemma ReportPosts(h: Heap, t: Task, ptr: u64, d: DeallocFamily, env: Env)
    ensures var ring, ring' := h.chan.ring, ReportedChannel(h, t, ptr, d, env).ring;
      if Posts(h, t, ptr, d, env) && env.ringOk then
        && |ring'| == |ring| + 1 && ring'[..|ring|] == ring
        && Submitted(ring'[|ring|], t, FreeEvent(h, t, ptr, d, env.stack))
      else ring' == ring
  {
    var ch := ApplyOp(h.chan, Create(t.pid, env.stateOk));
    if t.pid in ch.states {
      PostAppends(ch, t, env.ringOk, FreeEvent(h, t, ptr, d, env.stack));
    }
  }

  lemma ReleasePostsVerdict(h: Heap, t: Task, ptr: u64, d: DeallocFamily, env: Env, fate: Fate)
    requires Inv(h) && ptr != 0 && Project(h, AllocKey(t.pid, ptr)) == fate
    ensures PostsVerdict(h, Apply(h, Release(t, ptr, d, env)), t, FreeEvent(h, t, ptr, d, env.stack),
                         FateVerdict(fate, d), StateFound(h, t.pid, env) && env.ringOk)
  {
    var key := AllocKey(t.pid, ptr);
    ProjectedVerdict(h, key, d);
    ReleaseChannel(h, t, ptr, d, env);
    if !Silent(h, key) {
      ReportPosts(h, t, ptr, d, env);
      if Armed(h.chan, t.pid) {
        OpKeepsArmed(h.chan, Create(t.pid, env.stateOk), t.pid);
      }
      assert StateFound(h, t.pid, env) <==> Posts(h, t, ptr, d, env);
    }
  }

  /** In every reachable state a release posts exactly the verdict of the pointer's
      history: the arming gate never swallows one. */
  lemma ReleasePostsHistoryVerdict(ps: seq<Probe>, t: Task, ptr: u64, d: DeallocFamily, env: Env)
    requires ptr != 0
    ensures var h := Run(EMPTY_HEAP, ps);
      PostsVerdict(h, Apply(h, Release(t, ptr, d, env)), t, FreeEvent(h, t, ptr, d, env.stack),
                   FateVerdict(FateOf(History(ps, AllocKey(t.pid, ptr))), d), StateFound(h, t.pid, env) && env.ringOk)
  {
    ReachableInv(ps);
    TrackerRefinesHistory(ps, AllocKey(t.pid, ptr));
    ReleasePostsVerdict(Run(EMPTY_HEAP, ps), t, ptr, d, env, FateOf(History(ps, AllocKey(t.pid, ptr))));
  }

  // ----- the same verdicts, read off the history -----

  /** Touch `i` allocated the pointer and nothing has ended that allocation since. */
  ghost predicate LiveSince(xs: seq<Touch>, i: nat) {
    && i < |xs| && xs[i].Allocated?
    && forall j :: i < j < |xs| ==> !xs[j].Allocated? && !Ends(xs[j])
  }

  /** Touch `j` ended the allocation made at `i`, and no allocation came after. */
  ghost predicate EndedAt(xs: seq<Touch>, i: nat, j: nat) {
    && i < j < |xs| && xs[i].Allocated? && Ends(xs[j])
    && (forall k :: i < k < j ==> !Ends(xs[k]))
    && forall k :: i < k < |xs| ==> !xs[k].Allocated?
  }

  /** A call to free followed the C++ release at `j`: libstdc++ returning the storage. */
  ghost predicate StorageReturned(xs: seq<Touch>, j: nat) {
    exists k :: j < k < |xs| && xs[k].Freed? && xs[k].dealloc == DeallocFree
  }

  predicate Ends(x: Touch) {
    x.Moved? || (x.Freed? && x.recorded)
  }

  function EndingFamily(x: Touch): DeallocFamily
    requires Ends(x)
  {
    if x.Moved? then DeallocFree else x.dealloc
  }

  /** The position of an allocation still live, or of an allocation and its end. */
  ghost predicate Explains(xs: seq<Touch>, f: Fate, i: nat, j: nat) {
    match f
    case Unknown =>
      || (forall k :: 0 <= k < |xs| ==> !xs[k].Allocated?)
      || (EndedAt(xs, i, j) && CppRelease(EndingFamily(xs[j])) && StorageReturned(xs, j))
    case Live(info) => LiveSince(xs, i) && xs[i].info == info
    case Gone(info, d) =>
      && EndedAt(xs, i, j) && xs[i].info == info && EndingFamily(xs[j]) == d
      && (CppRelease(d) ==> !StorageReturned(xs, j))
  }

  lemma {:induction false} FateExplained(xs: seq<Touch>) returns (i: nat, j: nat)
    ensures Explains(xs, FateOf(xs), i, j)
  {
    if xs == [] {
      return 0, 0;
    }
    var before, x := xs[..|xs| - 1], xs[|xs| - 1];
    i, j := FateExplained(before);
    var f := FateOf(before);
    match x
    case Untouched =>
    case Allocated(_) => i := |before|;
    case Moved => if f.Live? { j := |before|; }
    case Freed(_, _) => if f.Live? { j := |before|; }
    ExplainNext(before, x, f, i, j);
    assert before + [x] == xs;
  }

  lemma ExplainNext(before: seq<Touch>, x: Touch, f: Fate, i: nat, j: nat)
    requires x.Allocated? ==> i == |before|
    requires !x.Allocated? ==>
      if f.Live? && !x.Untouched? then j == |before| && Explains(before, f, i, 0) else Explains(before, f, i, j)
    ensures Explains(before + [x], Next(f, x), i, j)
  {
    var xs := before + [x];
    if !x.Allocated? && !f.Live? && StorageReturned(before, j) {
      var k :| j < k < |before| && before[k].Freed? && before[k].dealloc == DeallocFree;
      assert xs[k] == before[k];
      assert StorageReturned(xs, j);
    }
    if x.Freed? && x.dealloc == DeallocFree && j < |before| {
      assert xs[|before|] == x;
      assert StorageReturned(xs, j);
    }
  }

  /** A history has one explanation only. */
  lemma ExplanationsAgree(xs: seq<Touch>, f: Fate, i: nat, j: nat, f': Fate, i': nat, j': nat)
    requires Explains(xs, f, i, j) && Explains(xs, f', i', j')
    ensures f == f'
  {
    if EndedAt(xs, i, j) && EndedAt(xs, i', j') {
      assert i == i' && j == j';
    }
  }

  /** The verdict on the next release, in terms of the positions of the history alone. */
  lemma VerdictFromHistory(xs: seq<Touch>, d: DeallocFamily)
    ensures FateVerdict(FateOf(xs), d) == Some(FreeOk) <==>
      exists i: nat :: LiveSince(xs, i) && FamilyMatches(xs[i].info.family, d)
    ensures FateVerdict(FateOf(xs), d) == Some(FreeMismatch) <==>
      exists i: nat :: LiveSince(xs, i) && !FamilyMatches(xs[i].info.family, d)
    ensures FateVerdict(FateOf(xs), d) == Some(FreeDouble) <==>
      exists i: nat, j: nat :: EndedAt(xs, i, j) && !CppRelease(EndingFamily(xs[j]))
    ensures FateVerdict(FateOf(xs), d) == None <==>
      exists i: nat, j: nat :: EndedAt(xs, i, j) && CppRelease(EndingFamily(xs[j])) && !StorageReturned(xs, j)
    ensures FateVerdict(FateOf(xs), d) == Some(FreeInvalid) <==>
      || (forall k :: 0 <= k < |xs| ==> !xs[k].Allocated?)
      || exists i: nat, j: nat :: EndedAt(xs, i, j) && CppRelease(EndingFamily(xs[j])) && StorageReturned(xs, j)
  {
    var i0, j0 := FateExplained(xs);
    var f := FateOf(xs);
    forall i: nat, j: nat, f' | Explains(xs, f', i, j) ensures f' == f {
      ExplanationsAgree(xs, f, i0, j0, f', i, j);
    }
    forall i: nat | LiveSince(xs, i) ensures f == Live(xs[i].info) {
      assert Explains(xs, Live(xs[i].info), i, 0);
    }
    forall i: nat, j: nat | EndedAt(xs, i, j)
      ensures f == if CppRelease(EndingFamily(xs[j])) && StorageReturned(xs, j) then Unknown
                   else Gone(xs[i].info, EndingFamily(xs[j]))
    {
      var f' := if CppRelease(EndingFamily(xs[j])) && StorageReturned(xs, j) then Unknown
                else Gone(xs[i].info, EndingFamily(xs[j]));
      assert Explains(xs, f', i, j);
    }
    if forall k :: 0 <= k < |xs| ==> !xs[k].Allocated? {
      assert Explains(xs, Unknown, 0, 0);
    }
  }

  // ----- two deletes -----

  /** A new and its delete, whose implementation calls free on the storage. */
  function NewAndDelete(t: Task, ptr: u64, size: u64): seq<Probe> {
    [Enter(t, Sized(size))] + [AllocExit(t, ptr, AllocNew, OK)] + [Release(t, ptr, DeallocDelete, OK)]
    + [Release(t, ptr, DeallocFree, OK)]
  }

  /** One more probe, seen from one pointer. */
  lemma FateStep(ps: seq<Probe>, p: Probe, key: AllocKey)
    ensures FateOf(History(ps + [p], key)) == Next(FateOf(History(ps, key)), TouchOf(Run(EMPTY_HEAP, ps), p, key))
  {
    var xs := History(ps + [p], key);
    assert (ps + [p])[..|ps|] == ps;
    assert xs[..|xs| - 1] == History(ps, key);
  }

  lemma NewAndDeleteFates(t: Task, ptr: u64, size: u64)
    requires ptr != 0
    ensures var ps, key := NewAndDelete(t, ptr, size), AllocKey(t.pid, ptr);
      FateOf(History(ps, key)).Unknown? && FateVerdict(FateOf(History(ps[..3], key)), DeallocDelete) == None
  {
    var key := AllocKey(t.pid, ptr);
    var enter, exit := Enter(t, Sized(size)), AllocExit(t, ptr, AllocNew, OK);
    var delete, free := Release(t, ptr, DeallocDelete, OK), Release(t, ptr, DeallocFree, OK);
    FateStep([], enter, key);
    FateStep([] + [enter], exit, key);
    FateStep([] + [enter] + [exit], delete, key);
    FateStep([] + [enter] + [exit] + [delete], free, key);
    var ps := NewAndDelete(t, ptr, size);
    assert ps == [] + [enter] + [exit] + [delete] + [free];
    assert ps[..3] == [] + [enter] + [exit] + [delete];
  }

  /** The inner free makes the tracker forget the pointer, so deleting it again posts an
      invalid free; without the inner free nothing would be posted at all. */
  lemma SecondDeleteIsInvalid(t: Task, ptr: u64, size: u64)
    requires ptr != 0
    ensures var ps, key := NewAndDelete(t, ptr, size), AllocKey(t.pid, ptr);
      var ring := Run(EMPTY_HEAP, ps).chan.ring;
      var ring' := Run(EMPTY_HEAP, ps + [Release(t, ptr, DeallocDelete, OK)]).chan.ring;
      && |ring'| == |ring| + 1 && ring'[|ring|].errno == StatusCode(FreeInvalid)
      && FateVerdict(FateOf(History(ps[..3], key)), DeallocDelete) == None
  {
    var ps := NewAndDelete(t, ptr, size);
    NewAndDeleteFates(t, ptr, size);
    ReleasePostsHistoryVerdict(ps, t, ptr, DeallocDelete, OK);
    RunAppend(ps, Release(t, ptr, DeallocDelete, OK));
  }
}
