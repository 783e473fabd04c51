/** The userland agent: which events become findings, and the 256-entry ring that keeps
    the same finding from being reported again. */
module Agent {
  import opened Words
  import opened RangeIndex
  import opened Sentinel
  import opened HeapTracker
  import opened FdTracker
  import opened CopyChecker
  import Descriptors
  import DescriptorRuns

  const RING_SIZE: nat := 256

  datatype FindingKind =
    | HeapOverflow | DoubleFree | InvalidFree | AllocatorMismatch | DoubleClose | InvalidClose | Leak

  datatype FindingKey = FindingKey(
    kind: FindingKind, status: nat, pid: u32, siteId: u32, stackId: int,
    addr: u64, len: u32, allocSize: u32, allocOffset: u32)

  const ZERO_KEY: FindingKey := FindingKey(HeapOverflow, 0, 0, 0, 0, 0, 0, 0, 0)

  function KeyFor(e: Event, kind: FindingKind, status: nat): FindingKey {
    FindingKey(kind, status, e.pid, e.siteId, e.stackId, e.addr, e.len, e.allocSize, e.allocOffset)
  }

  /** The findings still remembered after a history of emissions: its last 256. */
  function Window(log: seq<FindingKey>): seq<FindingKey> {
    log[|log| - Min(|log|, RING_SIZE)..]
  }

  predicate Remembered(log: seq<FindingKey>, kind: FindingKind, pid: u32, addr: u64) {
    exists k :: k in Window(log) && k.kind == kind && k.pid == pid && k.addr == addr
  }

  predicate IsCopy(e: Event) {
    e.etype in {Memcpy, Memmove, Memset, Strcpy, Strncpy}
  }

  /** Malformed status fields read as benign. */
  function FreeStatusOf(errno: int): FreeStatus {
    if errno == 1 then FreeDouble else if errno == 2 then FreeInvalid else if errno == 3 then FreeMismatch else FreeOk
  }

  function FdStatusOf(errno: int): FdStatus {
    if errno == 1 then FdDoubleClose else if errno == 2 then FdInvalidClose else if errno == 3 then FdLeak else FdOk
  }

  /** The finding an event stands for, before de-duplication. */
  function Candidate(log: seq<FindingKey>, e: Event): Option<FindingKey> {
    if IsCopy(e) then
      if OverflowReported(e) then Some(KeyFor(e, HeapOverflow, 0)) else None
    else if e.etype == Free then
      match FreeStatusOf(e.errno)
      case FreeOk => None
      case FreeInvalid =>
        if Remembered(log, HeapOverflow, e.pid, e.addr) then None else Some(KeyFor(e, InvalidFree, 2))
      case FreeDouble =>
        if Remembered(log, AllocatorMismatch, e.pid, e.addr) || LibraryFree(e) then None
        else Some(KeyFor(e, DoubleFree, 1))
      case FreeMismatch => Some(KeyFor(e, AllocatorMismatch, 3))
    else if e.etype == FdClose then
      match FdStatusOf(e.errno)
      case FdOk => None
      case FdDoubleClose => Some(KeyFor(e, DoubleClose, 1))
      case FdInvalidClose => Some(KeyFor(e, InvalidClose, 2))
      case FdLeak => Some(KeyFor(e, Leak, 3))
    else None
  }

  /** The free that libstdc++ makes inside operator delete. */
  predicate LibraryFree(e: Event) {
    e.bytesRet == 1 && (e.len == 2 || e.len == 3)
  }

  /** The emission history after one candidate. */
  function Emitted(log: seq<FindingKey>, candidate: Option<FindingKey>): seq<FindingKey> {
    if candidate.Some? && candidate.value !in Window(log) then log + [candidate.value] else log
  }

  function AfterEvent(log: seq<FindingKey>, allowed: bool, e: Event): seq<FindingKey> {
    if allowed then Emitted(log, Candidate(log, e)) else log
  }

  // ----- what the history of emissions always satisfies -----

  /** Equal findings are separated by at least 256 others. */
  ghost predicate Spaced(log: seq<FindingKey>) {
    forall i, j :: 0 <= i < j < |log| && log[i] == log[j] ==> j - i > RING_SIZE
  }

  /** `later` is a secondary symptom of `earlier` at the same address. */
  predicate Secondary(earlier: FindingKey, later: FindingKey) {
    && earlier.pid == later.pid && earlier.addr == later.addr
    && ((earlier.kind == HeapOverflow && later.kind == InvalidFree)
        || (earlier.kind == AllocatorMismatch && later.kind == DoubleFree))
  }

  /** No secondary symptom follows its cause within 256 findings. */
  ghost predicate RootCausesOnly(log: seq<FindingKey>) {
    forall i, j :: 0 <= i < j < |log| && j - i <= RING_SIZE ==> !Secondary(log[i], log[j])
  }

  lemma WindowHolds(log: seq<FindingKey>, i: nat)
    requires i < |log| && |log| - i <= RING_SIZE
    ensures log[i] in Window(log)
  {
    assert Window(log)[i - (|log| - |Window(log)|)] == log[i];
  }

  lemma EmissionKeepsHistory(log: seq<FindingKey>, candidate: Option<FindingKey>)
    requires Spaced(log) && RootCausesOnly(log)
    requires candidate.Some? ==> forall k :: k in Window(log) ==> !Secondary(k, candidate.value)
    ensures Spaced(Emitted(log, candidate)) && RootCausesOnly(Emitted(log, candidate))
  {
    forall i | 0 <= i < |log| && |log| - i <= RING_SIZE ensures log[i] in Window(log) {
      WindowHolds(log, i);
    }
  }

  lemma CandidateIsRootCause(log: seq<FindingKey>, e: Event)
    ensures Candidate(log, e).Some? ==> forall k :: k in Window(log) ==> !Secondary(k, Candidate(log, e).value)
  {
  }

  /** After an event that stands for a finding, that finding is among the remembered. */
  lemma CandidateIsRemembered(log: seq<FindingKey>, e: Event)
    requires Candidate(log, e).Some?
    ensures Candidate(log, e).value in Window(AfterEvent(log, true, e))
  {
    var log' := AfterEvent(log, true, e);
    if |log'| > |log| {
      WindowHolds(log', |log|);
    }
  }

  // ----- the leak drain -----

  function LeakEvent(key: FdKey, info: FdInfo): Event
    requires key.fd >= 0
  {
    BlankEvent(Task(key.pid, key.pid)).(
      etype := FdClose, siteId := SiteOf(info.openStack), stackId := -1, fd := key.fd, errno := FdCode(FdLeak),
      addr := key.fd)
  }

  function LeakKey(key: FdKey, info: FdInfo): FindingKey
    requires key.fd >= 0
  {
    KeyFor(LeakEvent(key, info), Leak, FdCode(FdLeak))
  }

  predicate Drains(key: FdKey, open: map<FdKey, FdInfo>, allowed: set<u32>) {
    key.fd >= 0 && key.pid in allowed && key in open
  }

  /** The emission history after walking some keys of the open map. */
  function AfterDrain(log: seq<FindingKey>, keys: seq<FdKey>, open: map<FdKey, FdInfo>, allowed: set<u32>)
    : seq<FindingKey>
  {
    if keys == [] then log
    else
      var before := AfterDrain(log, keys[..|keys| - 1], open, allowed);
      var key := keys[|keys| - 1];
      if Drains(key, open, allowed) then Emitted(before, Some(LeakKey(key, open[key]))) else before
  }

  function DrainedKeys(keys: seq<FdKey>, open: map<FdKey, FdInfo>, allowed: set<u32>): seq<FdKey> {
    if keys == [] then []
    else
      var before := DrainedKeys(keys[..|keys| - 1], open, allowed);
      var key := keys[|keys| - 1];
      if Drains(key, open, allowed) then before + [key] else before
  }

  lemma {:induction false} DrainedKeysAre(keys: seq<FdKey>, open: map<FdKey, FdInfo>, allowed: set<u32>)
    ensures forall key :: key in DrainedKeys(keys, open, allowed) <==> key in keys && Drains(key, open, allowed)
  {
    if keys != [] {
      DrainedKeysAre(keys[..|keys| - 1], open, allowed);
    }
  }

  ghost predicate Distinct<T>(s: seq<T>) {
    forall i, j :: 0 <= i < j < |s| ==> s[i] != s[j]
  }

  ghost predicate NoLeaks(log: seq<FindingKey>) {
    forall k :: k in log ==> k.kind != Leak
  }

  function LeakKeys(keys: seq<FdKey>, open: map<FdKey, FdInfo>): seq<FindingKey>
    requires forall key :: key in keys ==> key.fd >= 0 && key in open
  {
    seq(|keys|, i requires 0 <= i < |keys| => LeakKey(keys[i], open[keys[i]]))
  }

  /** One walk over distinct keys emits one leak for each allowed open descriptor, in
      order, however many there are: eviction from the ring never repeats one. */
  lemma {:induction false} DrainEmitsEachOnce(log: seq<FindingKey>, keys: seq<FdKey>, open: map<FdKey, FdInfo>,
                                              allowed: set<u32>)
    requires NoLeaks(log) && Distinct(keys)
    ensures var drained := DrainedKeys(keys, open, allowed);
      && (forall key :: key in drained <==> key in keys && Drains(key, open, allowed))
      && AfterDrain(log, keys, open, allowed) == log + LeakKeys(drained, open)
  {
    DrainedKeysAre(keys, open, allowed);
    if keys != [] {
      var rest, key := keys[..|keys| - 1], keys[|keys| - 1];
      DrainEmitsEachOnce(log, rest, open, allowed);
      var drained := DrainedKeys(rest, open, allowed);
      var before := AfterDrain(log, rest, open, allowed);
      if Drains(key, open, allowed) {
        assert key !in rest;
        forall k | k in before ensures k != LeakKey(key, open[key]) {
          if k in LeakKeys(drained, open) {
            var i :| 0 <= i < |drained| && LeakKey(drained[i], open[drained[i]]) == k;
            assert drained[i] in rest;
          }
        }
        assert LeakKeys(drained + [key], open) == LeakKeys(drained, open) + [LeakKey(key, open[key])];
      }
    }
  }

  /** The emission history after the events of a session. */
  function AfterEvents(events: seq<Event>, allowed: set<u32>): seq<FindingKey> {
    if events == [] then []
    else
      var e := events[|events| - 1];
      AfterEvent(AfterEvents(events[..|events| - 1], allowed), e.pid in allowed, e)
  }

  predicate ReportsLeak(e: Event) {
    e.etype == FdClose && FdStatusOf(e.errno) == FdLeak
  }

  /** The other programs on the channel post no event that stands for a leak. */
  ghost predicate OthersReportNoLeak(steps: seq<Descriptors.Step>) {
    forall s :: s in steps && s.Elsewhere? && s.op.Post? ==> !ReportsLeak(s.op.body)
  }

  /** Neither the heap tracker nor the write checker does. */
  lemma HeapReportsNoLeak(h: Heap, t: Task, ptr: u64, size: Option<u64>, d: DeallocFamily, len: u64, etype: EventType,
                          api: int, stack: int)
    requires etype in {Memcpy, Memmove, Memset, Strcpy, Strncpy}
    ensures !ReportsLeak(AllocEvent(t, ptr, size, stack)) && !ReportsLeak(FreeEvent(h, t, ptr, d, stack))
    ensures !ReportsLeak(WriteEvent(h, t, ptr, len, etype, api, stack))
  {
  }

  /** Only the drain ever emits a leak: no event on the channel stands for one, in any run of
      the descriptor tracker among other programs. */
  lemma {:induction false} ChannelReportsNoLeak(steps: seq<Descriptors.Step>)
    requires OthersReportNoLeak(steps)
    ensures forall e :: e in Descriptors.TrackedAfter(steps).chan.ring ==> !ReportsLeak(e)
  {
    if steps != [] {
      var before, s := steps[..|steps| - 1], steps[|steps| - 1];
      var f := Descriptors.TrackedAfter(before);
      ChannelReportsNoLeak(before);
      if s.See? {
        ProbeReportsNoLeak(f, s.probe);
      } else if s.Elsewhere? {
        assert s in steps;
        OperationReportsNoLeak(f.chan, s.op);
      }
    }
  }

  lemma OperationReportsNoLeak(ch: Channel, op: Op)
    requires forall e :: e in ch.ring ==> !ReportsLeak(e)
    requires op.Post? ==> !ReportsLeak(op.body)
    ensures forall e :: e in ApplyOp(ch, op).ring ==> !ReportsLeak(e)
  {
  }

  lemma ProbeReportsNoLeak(f: Fds, p: FdProbe)
    requires forall e :: e in f.chan.ring ==> !ReportsLeak(e)
    ensures forall e :: e in ApplyFd(f, p).chan.ring ==> !ReportsLeak(e)
  {
    match p
    case ExitClose(t, ret, env) => CloseReportsNoLeak(f, t, ret, env);
    case RawExit(t, ret, env) =>
      var f1 := if t.tid in f.pendingOpen then
        OpenReturn(f.(pendingOpen := f.pendingOpen - {t.tid}), t, ret, f.pendingOpen[t.tid], env)
      else f;
      assert f1.chan.ring == f.chan.ring && DupReturn(f1, t, ret, env).chan.ring == f.chan.ring;
      CloseReportsNoLeak(DupReturn(f1, t, ret, env), t, ret, env);
    case _ =>
  }

  lemma CloseReportsNoLeak(f: Fds, t: Task, ret: int, env: FdEnv)
    requires forall e :: e in f.chan.ring ==> !ReportsLeak(e)
    ensures forall e :: e in CloseReturn(f, t, ret, env).chan.ring ==> !ReportsLeak(e)
  {
  }

  lemma {:induction false} SessionEmitsNoLeak(events: seq<Event>, allowed: set<u32>)
    requires forall e :: e in events ==> !ReportsLeak(e)
    ensures NoLeaks(AfterEvents(events, allowed))
  {
    if events != [] {
      SessionEmitsNoLeak(events[..|events| - 1], allowed);
      assert events[|events| - 1] in events;
    }
  }

  predicate ObtainedLast(cs: seq<Descriptors.Change>) {
    cs != [] && DescriptorRuns.Last(cs).Obtain?
  }

  /** After a session on the shared channel, whatever events of it the agent was handed and in
      whatever order, the drain adds one leak for each accepted descriptor an exit probe last
      showed obtained. These are the descriptors tracked calls hold open exactly when, for
      each of them, the last change seen is an acquisition just if the last change made is;
      an orderly run with nothing in flight is such a one. */
  lemma DrainReportsHeldIff(steps: seq<Descriptors.Step>, events: seq<Event>, keys: seq<FdKey>, allowed: set<u32>)
    requires Descriptors.Follows(steps) && Distinct(keys)
    requires forall key :: key in keys <==> key in Descriptors.TrackedAfter(steps).open
    requires OthersReportNoLeak(steps)
    requires forall e :: e in events && e.etype == FdClose ==> e in Descriptors.TrackedAfter(steps).chan.ring
    ensures var open, w := Descriptors.TrackedAfter(steps).open, Descriptors.WorldAfter(steps);
      var log, drained := AfterEvents(events, allowed), DrainedKeys(keys, open, allowed);
      && (forall key :: key in drained <==> key.pid in allowed && ObtainedLast(DescriptorRuns.Seen(steps, key)))
      && (forall key :: key in drained ==> key.fd >= 0 && key in open)
      && AfterDrain(log, keys, open, allowed) == log + LeakKeys(drained, open)
      && ((forall key :: key in drained <==> key.pid in allowed && key in w.kernel.held) <==>
          forall key: FdKey :: key.pid in allowed ==>
            (ObtainedLast(DescriptorRuns.Seen(steps, key)) <==> ObtainedLast(DescriptorRuns.Done(steps, key))))
      && (DescriptorRuns.AlwaysOrderly(steps) && w.flight == [] ==>
          forall key :: key in drained <==> key.pid in allowed && key in w.kernel.held)
  {
    var open, held := Descriptors.TrackedAfter(steps).open, Descriptors.WorldAfter(steps).kernel.held;
    var drained := DrainedKeys(keys, open, allowed);
    ChannelReportsNoLeak(steps);
    SessionEmitsNoLeak(events, allowed);
    DrainEmitsEachOnce(AfterEvents(events, allowed), keys, open, allowed);
    DrainedKeysAre(keys, open, allowed);
    Descriptors.RunCoherent(steps);
    forall key: FdKey
      ensures key in open <==> ObtainedLast(DescriptorRuns.Seen(steps, key))
      ensures key in held <==> ObtainedLast(DescriptorRuns.Done(steps, key))
    {
      DescriptorRuns.AgreesIffLastSeenIsLastDone(steps, key);
    }
    if DescriptorRuns.AlwaysOrderly(steps) && Descriptors.WorldAfter(steps).flight == [] {
      forall key: FdKey ensures key in open <==> key in held {
        DescriptorRuns.QuietDescriptorAgrees(steps, key);
      }
    }
    HeldIffMatching(steps, drained, allowed);
  }

  lemma HeldIffMatching(steps: seq<Descriptors.Step>, drained: seq<FdKey>, allowed: set<u32>)
    requires Descriptors.Follows(steps)
    requires forall key :: key in drained <==> key.pid in allowed && ObtainedLast(DescriptorRuns.Seen(steps, key))
    ensures (forall key :: key in drained <==> key.pid in allowed && key in Descriptors.WorldAfter(steps).kernel.held) <==>
      forall key: FdKey :: key.pid in allowed ==>
        (ObtainedLast(DescriptorRuns.Seen(steps, key)) <==> ObtainedLast(DescriptorRuns.Done(steps, key)))
  {
    forall key: FdKey
      ensures key in Descriptors.WorldAfter(steps).kernel.held <==> ObtainedLast(DescriptorRuns.Done(steps, key))
    {
      DescriptorRuns.AgreesIffLastSeenIsLastDone(steps, key);
    }
  }

  // ----- the ring -----

  /** Entry i of the history sits in slot i mod 256 until 256 more have been emitted. */
  ghost predicate HoldsLast(slots: seq<FindingKey>, log: seq<FindingKey>)
    requires |slots| == RING_SIZE
  {
    forall i :: |log| - Min(|log|, RING_SIZE) <= i < |log| ==> slots[i % RING_SIZE] == log[i]
  }

  lemma RingGoesOn(slots: seq<FindingKey>, log: seq<FindingKey>, key: FindingKey)
    requires |slots| == RING_SIZE && HoldsLast(slots, log)
    ensures HoldsLast(slots[|log| % RING_SIZE := key], log + [key])
    ensures (|log| % RING_SIZE + 1) % RING_SIZE == (|log| + 1) % RING_SIZE
  {
    forall i | |log| + 1 - Min(|log| + 1, RING_SIZE) <= i < |log|
      ensures slots[|log| % RING_SIZE := key][i % RING_SIZE] == log[i]
    {
      DifferentSlots(i, |log|);
    }
  }

  class FindingRing {
    const slots: array<FindingKey>
    var count: nat
    var next: nat
    ghost var log: seq<FindingKey>

    ghost predicate Valid()
      reads this, slots
    {
      && slots.Length == RING_SIZE
      && count == Min(|log|, RING_SIZE) && next == |log| % RING_SIZE
      && HoldsLast(slots[..], log)
      && Spaced(log) && RootCausesOnly(log)
    }

    constructor ()
      ensures Valid() && fresh(slots) && log == []
    {
      slots := new FindingKey[RING_SIZE](_ => ZERO_KEY);
      count, next, log := 0, 0, [];
    }

    /** Slots below the count hold exactly the remembered findings. */
    lemma SlotsAreWindow()
      requires Valid()
      ensures forall k :: k in slots[..count] <==> k in Window(log)
    {
      forall k | k in slots[..count] ensures k in Window(log) {
        var i :| 0 <= i < count && slots[i] == k;
        SlotIsRemembered(i);
      }
      forall k | k in Window(log) ensures k in slots[..count] {
        var w :| 0 <= w < |Window(log)| && Window(log)[w] == k;
        RememberedHasSlot(|log| - |Window(log)| + w);
      }
    }

    lemma SlotIsRemembered(i: nat)
      requires Valid() && i < count
      ensures slots[i] in Window(log)
    {
      var turns := (|log| - 1 - i) / RING_SIZE;
      var j := i + RING_SIZE * turns;
      SlotOf(i, j, turns);
      assert slots[j % RING_SIZE] == log[j];
      WindowHolds(log, j);
    }

    lemma RememberedHasSlot(j: nat)
      requires Valid() && |log| - count <= j < |log|
      ensures log[j] in slots[..count]
    {
      assert slots[j % RING_SIZE] == log[j];
      assert slots[..count][j % RING_SIZE] == log[j];
    }

    method AlreadyEmitted(key: FindingKey) returns (found: bool)
      requires Valid()
      ensures found <==> key in Window(log)
    {
      SlotsAreWindow();
      for i := 0 to count
        invariant key !in slots[..i]
      {
        if slots[i] == key {
          assert slots[..count][i] == key;
          return true;
        }
      }
      return false;
    }

    method EmittedForAddr(kind: FindingKind, pid: u32, addr: u64) returns (found: bool)
      requires Valid()
      ensures found <==> Remembered(log, kind, pid, addr)
    {
      SlotsAreWindow();
      for i := 0 to count
        invariant forall k :: k in slots[..i] ==> !(k.kind == kind && k.pid == pid && k.addr == addr)
      {
        if slots[i].kind == kind && slots[i].pid == pid && slots[i].addr == addr {
          assert slots[..count][i] == slots[i];
          return true;
        }
      }
      return false;
    }

    method MarkEmitted(key: FindingKey)
      requires Valid() && Spaced(log + [key]) && RootCausesOnly(log + [key])
      modifies this, slots
      ensures Valid() && log == old(log) + [key]
    {
      RingGoesOn(slots[..], log, key);
      slots[next] := key;
      if count < RING_SIZE {
        count := count + 1;
      }
      log := log + [key];
      next := (next + 1) % RING_SIZE;
    }

    method Emit(candidate: Option<FindingKey>) returns (emitted: bool)
      requires Valid()
      requires candidate.Some? ==> forall k :: k in Window(log) ==> !Secondary(k, candidate.value)
      modifies this, slots
      ensures Valid() && log == Emitted(old(log), candidate)
      ensures emitted <==> |log| > |old(log)|
    {
      if candidate.None? {
        return false;
      }
      var seen := AlreadyEmitted(candidate.value);
      if seen {
        return false;
      }
      EmissionKeepsHistory(log, candidate);
      MarkEmitted(candidate.value);
      return true;
    }

    method FreeCandidate(e: Event) returns (candidate: Option<FindingKey>)
      requires Valid() && e.etype == Free
      ensures candidate == Candidate(log, e)
    {
      var status := FreeStatusOf(e.errno);
      if status == FreeOk {
        return None;
      }
      if status == FreeInvalid {
        var overflowed := EmittedForAddr(HeapOverflow, e.pid, e.addr);
        if overflowed {
          return None;
        }
      }
      if status == FreeDouble {
        var mismatched := EmittedForAddr(AllocatorMismatch, e.pid, e.addr);
        if mismatched {
          return None;
        }
        if e.bytesRet == DeallocCode(DeallocFree) && (e.len == 2 || e.len == 3) {
          return None;
        }
      }
      var kind := InvalidFree;
      if status == FreeDouble {
        kind := DoubleFree;
      } else if status == FreeMismatch {
        kind := AllocatorMismatch;
      }
      return Some(KeyFor(e, kind, StatusCode(status)));
    }

    method OnSentinelEvent(allowed: bool, e: Event) returns (emitted: bool)
      requires Valid()
      modifies this, slots
      ensures Valid() && log == AfterEvent(old(log), allowed, e)
      ensures emitted <==> |log| > |old(log)|
    {
      if !allowed {
        return false;
      }
      var candidate := None;
      if IsCopy(e) {
        if e.allocSize == 0 || e.allocOffset >= e.allocSize {
          return false;
        }
        var remaining := e.allocSize - e.allocOffset;
        if e.len <= remaining {
          return false;
        }
        candidate := Some(KeyFor(e, HeapOverflow, StatusCode(FreeOk)));
      } else if e.etype == Free {
        candidate := FreeCandidate(e);
      } else if e.etype == FdClose {
        var status := FdStatusOf(e.errno);
        if status == FdOk {
          return false;
        }
        var kind :=
          if status == FdDoubleClose then DoubleClose else if status == FdInvalidClose then InvalidClose else Leak;
        candidate := Some(KeyFor(e, kind, FdCode(status)));
      }
      CandidateIsRootCause(log, e);
      emitted := Emit(candidate);
    }

    /** `keys` is the order in which the kernel hands out the keys of the open map. */
    method DrainFdLeaks(keys: seq<FdKey>, open: map<FdKey, FdInfo>, allowed: set<u32>)
      requires Valid()
      modifies this, slots
      ensures Valid() && log == AfterDrain(old(log), keys, open, allowed)
    {
      for n := 0 to |keys|
        invariant Valid() && log == AfterDrain(old(log), keys[..n], open, allowed)
      {
        var key := keys[n];
        assert keys[..n + 1][..n] == keys[..n];
        if key.fd < 0 || key.pid !in allowed || key !in open {
          continue;
        }
        var _ := Emit(Some(LeakKey(key, open[key])));
      }
      assert keys[..|keys|] == keys;
    }
  }

  lemma SlotOf(i: nat, j: nat, turns: nat)
    requires i < RING_SIZE && j == i + RING_SIZE * turns
    ensures j % RING_SIZE == i
  {
  }

  lemma DifferentSlots(i: nat, n: nat)
    requires i < n < i + RING_SIZE
    ensures i % RING_SIZE != n % RING_SIZE
  {
  }
}
