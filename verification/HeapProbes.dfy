/** The allocation probes themselves: handlers that update the shared maps in place. A
    tracker keeps the run of probes that brought it about, what other programs did to the
    shared channel included, so every theorem about runs is one about its value. */
module HeapProbes {
  import opened Words
  import opened RangeIndex
  import opened Sentinel
  import opened HeapTracker

  class Tracker {
    const chan: SentinelChannel
    var allocs: Allocs
    var freed: Allocs
    var ranges: Ranges
    var pending: map<u32, u64>
    var reallocOld: map<u32, u64>
    var outPtr: map<u32, u64>
    /** The run up to the first `seen` operations of the channel; whatever came after them
        was the doing of others. */
    ghost var trace: seq<Probe>
    ghost var seen: nat

    ghost function View(): Heap
      reads this, chan
    {
      Heap(allocs, freed, ranges, pending, reallocOld, outPtr, chan.View())
    }

    ghost function Trace(): seq<Probe>
      requires seen <= |chan.log|
      reads this, chan
    {
      trace + Outsides(chan.log[seen..])
    }

    ghost predicate Valid()
      reads this, chan
    {
      chan.Valid() && seen <= |chan.log| && View() == Run(EMPTY_HEAP, Trace())
    }

    lemma ValidMeansInv()
      requires Valid()
      ensures Inv(View())
    {
      ReachableInv(Trace());
    }

    /** Other users of the channel leave the tracker valid. */
    twostate lemma OthersKeepValid()
      requires old(Valid()) && unchanged(this) && chan.Valid() && old(chan.log) <= chan.log
      ensures Valid() && Trace() == old(Trace()) + Outsides(chan.log[|old(chan.log)|..])
      ensures View() == old(View()).(chan := chan.View())
    {
      RunGoesOn(old(View()), trace, seen, old(chan.log), chan.log);
    }

    /** The run goes on by one probe of this tracker. */
    ghost method Log(before: seq<Probe>, p: Probe)
      requires chan.Valid() && View() == Apply(Run(EMPTY_HEAP, before), p)
      modifies this`trace, this`seen
      ensures Valid() && Trace() == before + [p]
    {
      RunAppend(before, p);
      ghost var view := View();
      trace, seen := before + [p], |chan.log|;
      NothingSince(trace, chan.log);
      assert View() == view;
    }

    constructor (chan: SentinelChannel)
      requires chan.Valid()
      ensures this.chan == chan && Valid() && Trace() == Outsides(chan.log)
      ensures View() == EMPTY_HEAP.(chan := chan.View())
    {
      this.chan := chan;
      allocs, freed, ranges, pending, reallocOld, outPtr := map[], map[], map[], map[], map[], map[];
      trace, seen := [], 0;
      new;
      RunOutsides([], chan.log);
      assert [] + Outsides(chan.log[0..]) == [] + Outsides(chan.log);
    }

    // ----- entry probes -----

    method RememberSize(t: Task, size: u64)
      modifies this`pending
      ensures pending == old(pending)[t.tid := Encode(size)]
    {
      var enc := if size == U64_MAX then U64_MAX else size + 1;
      pending := pending[t.tid := enc];
    }

    method SizedEnter(t: Task, size: u64)
      requires Valid()
      modifies this
      ensures Valid() && View() == Apply(old(View()), Enter(t, Sized(size)))
      ensures Trace() == old(Trace()) + [Enter(t, Sized(size))]
    {
      ghost var before := Trace();
      RememberSize(t, size);
      Log(before, Enter(t, Sized(size)));
    }

    method CallocEnter(t: Task, nmemb: u64, size: u64)
      requires Valid()
      modifies this
      ensures Valid() && View() == Apply(old(View()), Enter(t, Calloc(nmemb, size)))
      ensures Trace() == old(Trace()) + [Enter(t, Calloc(nmemb, size))]
    {
      ghost var before := Trace();
      var overflow, total := MulOverflow64(nmemb, size);
      if overflow {
        total := 0;
      }
      RememberSize(t, total);
      Log(before, Enter(t, Calloc(nmemb, size)));
    }

    method ReallocEnter(t: Task, oldPtr: u64, newSize: u64)
      requires Valid()
      modifies this
      ensures Valid() && View() == Apply(old(View()), Enter(t, Realloc(oldPtr, newSize)))
      ensures Trace() == old(Trace()) + [Enter(t, Realloc(oldPtr, newSize))]
    {
      ghost var before := Trace();
      if oldPtr != 0 {
        reallocOld := reallocOld[t.tid := oldPtr];
      }
      RememberSize(t, newSize);
      Log(before, Enter(t, Realloc(oldPtr, newSize)));
    }

    method MemalignEnter(t: Task, slot: u64, size: u64)
      requires Valid()
      modifies this
      ensures Valid() && View() == Apply(old(View()), Enter(t, Memalign(slot, size)))
      ensures Trace() == old(Trace()) + [Enter(t, Memalign(slot, size))]
    {
      ghost var before := Trace();
      outPtr := outPtr[t.tid := slot];
      RememberSize(t, size);
      Log(before, Enter(t, Memalign(slot, size)));
    }

    method StrdupEnter(t: Task, src: u64, len: int)
      requires Valid()
      modifies this
      ensures Valid() && View() == Apply(old(View()), Enter(t, Strdup(src, len)))
      ensures Trace() == old(Trace()) + [Enter(t, Strdup(src, len))]
    {
      ghost var before := Trace();
      if src == 0 {
        RememberSize(t, 0);
      } else if len <= 0 || len >= 256 {
        RememberSize(t, U64_MAX);
      } else {
        RememberSize(t, len);
      }
      Log(before, Enter(t, Strdup(src, len)));
    }

    // ----- return probes -----

    method TakePendingSize(t: Task) returns (size: Option<u64>)
      modifies this`pending
      ensures size == TakenSize(old(View()), t.tid) && pending == old(pending) - {t.tid}
    {
      if t.tid !in pending {
        return None;
      }
      var enc := pending[t.tid];
      pending := pending - {t.tid};
      if enc == U64_MAX {
        return Some(U64_MAX);
      }
      return Some(Wrap64(enc as int - 1));
    }

    /** The shared tail of every recorded release: index, `allocs`, then `freed`. */
    method MoveToFreed(key: AllocKey, d: DeallocFamily)
      requires key in allocs
      modifies this`allocs, this`freed, this`ranges
      ensures View() == Untrack(old(View()), key, d)
    {
      var snapshot := allocs[key].(dealloc := d);
      ranges := RemoveAllocationRange(ranges, key, allocs[key]);
      allocs := allocs - {key};
      freed := freed[key := snapshot];
    }

    method MarkAllocationFreed(key: AllocKey)
      modifies this`allocs, this`freed, this`ranges
      ensures View() == MarkFreed(old(View()), key)
    {
      if key in allocs {
        MoveToFreed(key, DeallocFree);
      }
    }

    method TrackAllocation(key: AllocKey, info: AllocInfo)
      modifies this`allocs, this`freed, this`ranges
      ensures View() == Track(old(View()), key, info)
    {
      freed := freed - {key};
      if key in allocs {
        ranges := RemoveAllocationRange(ranges, key, allocs[key]);
      }
      allocs := allocs[key := info];
      ranges := IndexAllocationRange(ranges, key, info);
    }

    method PostAllocation(t: Task, ret: u64, size: Option<u64>, env: Env)
      requires chan.Valid()
      modifies chan
      ensures chan.Valid()
      ensures chan.View() == ApplyOp(old(chan.View()), Post(t, env.ringOk, AllocEvent(t, ret, size, env.stack)))
    {
      var evt := BlankEvent(t).(etype := Malloc, addr := ret, stackId := env.stack);
      evt := evt.(len := if size.Some? then Saturate32(size.value) else 0);
      evt := evt.(allocSize := evt.len, allocBase := ret);
      var _ := chan.Emit(t, env.ringOk, evt);
    }

    method ArmAndTrack(key: AllocKey, info: AllocInfo)
      requires chan.Valid() && key.pid in chan.states
      modifies this`allocs, this`freed, this`ranges, chan
      ensures chan.Valid() && View() == Track(old(View()), key, info).(chan := ApplyOp(old(chan.View()), Arm(key.pid)))
      ensures key.pid in chan.states
    {
      chan.SetArmed(key.pid);
      TrackAllocation(key, info);
    }

    method RecordAllocationReturn(t: Task, ret: u64, size: Option<u64>, family: AllocFamily, env: Env)
      requires chan.Valid()
      modifies this`allocs, this`freed, this`ranges, chan
      ensures chan.Valid() && View() == AllocReturn(old(View()), t, ret, size, family, env)
    {
      if ret == 0 {
        return;
      }
      var ok := chan.GetState(t.pid, env.stateOk);
      if !ok {
        return;
      }
      if size.Some? || family != AllocMalloc {
        var bytes := if size.Some? then size.value else 0;
        ArmAndTrack(AllocKey(t.pid, ret), AllocInfo(bytes, env.stack, family, DeallocUnknown));
      }
      PostAllocation(t, ret, size, env);
    }

    method AllocExit(t: Task, ret: u64, family: AllocFamily, env: Env)
      requires Valid()
      modifies this, chan
      ensures Valid() && View() == Apply(old(View()), Probe.AllocExit(t, ret, family, env))
      ensures Trace() == old(Trace()) + [Probe.AllocExit(t, ret, family, env)]
    {
      ghost var before := Trace();
      var size := TakePendingSize(t);
      RecordAllocationReturn(t, ret, size, family, env);
      Log(before, Probe.AllocExit(t, ret, family, env));
    }

    method ReallocExit(t: Task, ret: u64, env: Env)
      requires Valid()
      modifies this, chan
      ensures Valid() && View() == Apply(old(View()), Probe.ReallocExit(t, ret, env))
      ensures Trace() == old(Trace()) + [Probe.ReallocExit(t, ret, env)]
    {
      ghost var before := Trace();
      RecordReallocReturn(t, ret, env);
      Log(before, Probe.ReallocExit(t, ret, env));
    }

    method RecordReallocReturn(t: Task, ret: u64, env: Env)
      requires chan.Valid()
      modifies this`allocs, this`freed, this`ranges, this`pending, this`reallocOld, chan
      ensures chan.Valid() && View() == ReallocReturn(old(View()), t, ret, env)
    {
      var size := TakePendingSize(t);
      var oldPtr := if t.tid in reallocOld then reallocOld[t.tid] else 0;
      reallocOld := reallocOld - {t.tid};
      var oldKey := AllocKey(t.pid, oldPtr);
      if ret == 0 {
        if size.Some? && size.value == 0 && oldPtr != 0 {
          MarkAllocationFreed(oldKey);
        }
        return;
      }
      if oldPtr != 0 && oldPtr != ret {
        MarkAllocationFreed(oldKey);
      }
      RecordAllocationReturn(t, ret, size, AllocMalloc, env);
    }

    method MemalignExit(t: Task, rc: int, readOk: bool, stored: u64, env: Env)
      requires Valid()
      modifies this, chan
      ensures Valid() && View() == Apply(old(View()), Probe.MemalignExit(t, rc, readOk, stored, env))
      ensures Trace() == old(Trace()) + [Probe.MemalignExit(t, rc, readOk, stored, env)]
    {
      ghost var before := Trace();
      RecordMemalignReturn(t, rc, readOk, stored, env);
      Log(before, Probe.MemalignExit(t, rc, readOk, stored, env));
    }

    method RecordMemalignReturn(t: Task, rc: int, readOk: bool, stored: u64, env: Env)
      requires chan.Valid()
      modifies this`allocs, this`freed, this`ranges, this`pending, this`outPtr, chan
      ensures chan.Valid() && View() == MemalignReturn(old(View()), t, rc, readOk, stored, env)
    {
      var size := TakePendingSize(t);
      var slot := if t.tid in outPtr then outPtr[t.tid] else 0;
      outPtr := outPtr - {t.tid};
      if rc != 0 || slot == 0 || !readOk {
        return;
      }
      RecordAllocationReturn(t, stored, size, AllocMalloc, env);
    }

    method ClassifyRelease(t: Task, ptr: u64, d: DeallocFamily, stack: int) returns (evt: Event)
      ensures evt == FreeEvent(View(), t, ptr, d, stack)
    {
      var key := AllocKey(t.pid, ptr);
      var status := FreeOk;
      var known := None;
      if key !in allocs {
        if key in freed {
          status := FreeDouble;
          known := Some(freed[key]);
        } else {
          status := FreeInvalid;
        }
      } else {
        known := Some(allocs[key]);
        if !FamilyMatches(allocs[key].family, d) {
          status := FreeMismatch;
        }
      }
      evt := BlankEvent(t).(etype := Free, addr := ptr, stackId := stack);
      evt := evt.(errno := StatusCode(status), bytesRet := DeallocCode(d));
      if known.Some? {
        var info := known.value;
        evt := evt.(allocSize := Saturate32(info.size), len := AllocCode(info.family), siteId := SiteOf(info.stack));
      }
    }

    method ReportRelease(t: Task, ptr: u64, d: DeallocFamily, env: Env) returns (reserved: bool)
      requires chan.Valid()
      modifies chan
      ensures chan.Valid() && chan.View() == ReportedChannel(old(View()), t, ptr, d, env)
      ensures reserved <==> Posts(old(View()), t, ptr, d, env) && env.ringOk
    {
      var evt := ClassifyRelease(t, ptr, d, env.stack);
      var ok := chan.GetState(t.pid, env.stateOk);
      if !ok {
        return false;
      }
      if !chan.states[t.pid].armed && evt.errno == StatusCode(FreeOk) {
        return false;
      }
      reserved := chan.Emit(t, env.ringOk, evt);
    }

    /** free and the delete operators. */
    method Release(t: Task, ptr: u64, d: DeallocFamily, env: Env)
      requires Valid()
      modifies this, chan
      ensures Valid() && View() == Apply(old(View()), Probe.Release(t, ptr, d, env))
      ensures Trace() == old(Trace()) + [Probe.Release(t, ptr, d, env)]
    {
      ghost var before := Trace();
      RecordDeallocation(t, ptr, d, env);
      Log(before, Probe.Release(t, ptr, d, env));
    }

    method RecordDeallocation(t: Task, ptr: u64, d: DeallocFamily, env: Env)
      requires chan.Valid()
      modifies this`allocs, this`freed, this`ranges, chan
      ensures chan.Valid() && View() == Deallocate(old(View()), t, ptr, d, env)
    {
      var key := AllocKey(t.pid, ptr);
      if ptr == 0 {
        return;
      }
      if key !in allocs && key in freed
         && (freed[key].dealloc == DeallocDelete || freed[key].dealloc == DeallocDeleteArray) {
        if d == DeallocFree {
          freed := freed - {key};
        }
        return;
      }
      var reserved := ReportRelease(t, ptr, d, env);
      if !reserved {
        return;
      }
      if key in allocs {
        MoveToFreed(key, d);
      }
    }
  }
}
