/** The descriptor maps against a kernel descriptor table. A call takes effect in the kernel
    at one moment and is seen by any number of entry and exit probes around it, while
    threads interleave freely. */
module Descriptors {
  import opened Words
  import opened Sentinel
  import opened FdTracker

  // ----- the kernel's table and the calls that change it -----

  /** `held` are the open descriptors obtained by a tracked call, `retired` those a
      tracked close gave up and no tracked call obtained again. */
  datatype Kernel = Kernel(open: set<FdKey>, held: set<FdKey>, retired: set<FdKey>)

  datatype DupKind = DupLowest | DupTo | DupAtLeast

  datatype Sys =
    | Open
    | Dup(kind: DupKind, oldFd: s32, arg: s32)   // dup; dup2, dup3; F_DUPFD
    | Close(fd: s32)

  /** What POSIX lets a call return. A failed close leaves an open descriptor open. */
  predicate Permits(k: Kernel, pid: u32, sys: Sys, ret: int) {
    && ret <= FD_MAX
    && match sys
       case Open => ret >= 0 ==> FdKey(pid, ret) !in k.open
       case Dup(kind, oldFd, arg) =>
         && (kind.DupLowest? ==> arg == -1)
         && (ret >= 0 ==>
           && oldFd >= 0 && FdKey(pid, oldFd) in k.open
           && (if kind.DupTo? then ret == arg else FdKey(pid, ret) !in k.open))
       case Close(fd) => ret == 0 ==> fd >= 0 && FdKey(pid, fd) in k.open
  }

  /** What can be told of a returned call without the table. */
  predicate Possible(sys: Sys, ret: int) {
    && ret <= FD_MAX
    && match sys
       case Open => true
       case Dup(kind, oldFd, arg) => ret >= 0 ==> oldFd >= 0 && (kind.DupTo? && arg == oldFd <==> arg == oldFd == ret)
       case Close(fd) => ret == 0 ==> fd >= 0
  }

  datatype Change = Obtain | GiveUp
  datatype Effect = Effect(key: FdKey, change: Change)

  /** The descriptor a returned call obtained or gave up, if any. */
  function EffectOf(pid: u32, sys: Sys, ret: int): Option<Effect> {
    match sys
    case Open => if GoodFd(ret) then Some(Effect(FdKey(pid, ret), Obtain)) else None
    case Dup(kind, oldFd, arg) =>
      if GoodFd(ret) && !(kind.DupTo? && arg == oldFd) then Some(Effect(FdKey(pid, ret), Obtain)) else None
    case Close(fd) => if ret == 0 then Some(Effect(FdKey(pid, fd), GiveUp)) else None
  }

  function KernelStep(k: Kernel, e: Option<Effect>): Kernel {
    match e
    case None => k
    case Some(Effect(key, Obtain)) => Kernel(k.open + {key}, k.held + {key}, k.retired - {key})
    case Some(Effect(key, GiveUp)) =>
      Kernel(k.open - {key}, k.held - {key}, if key in k.held then k.retired + {key} else k.retired)
  }

  // ----- calls as threads make them and as probes see them -----

  /** Where a thread is in its call, whether an entry of it was seen, and, once an exit was
      seen, whether an open entry was seen whose raw exit is still to come. */
  datatype Phase =
    | Idle
    | Called(task: Task, sys: Sys, entered: bool)
    | Effected(task: Task, sys: Sys, entered: bool, ret: int)
    | Returned(task: Task, sys: Sys, ret: int, rawDue: bool)

  datatype Step =
    | Begin(task: Task, sys: Sys)
    | Happen(tid: u32, ret: int)   // the kernel carries the call out
    | See(probe: FdProbe)
    | End(task: Task)
    | Foreign(key: FdKey)          // opened by a call no probe watches
    | Elsewhere(op: Op)            // another program uses the event channel

  /** A call that changed the kernel's table and that no exit probe has seen yet. */
  datatype Flight = Flight(tid: u32, effect: Effect)

  /** `flight` lists the calls in flight in the order in which they took effect. */
  datatype World = World(kernel: Kernel, phases: map<u32, Phase>, flight: seq<Flight>)

  const FIRST_WORLD: World := World(Kernel({}, {}, {}), map[], [])

  function PhaseOf(w: World, tid: u32): Phase {
    if tid in w.phases then w.phases[tid] else Idle
  }

  function Without(flight: seq<Flight>, tid: u32): seq<Flight> {
    if flight == [] then []
    else
      var rest := Without(flight[..|flight| - 1], tid);
      if flight[|flight| - 1].tid == tid then rest else rest + [flight[|flight| - 1]]
  }

  predicate IsEntry(p: FdProbe) {
    p.EnterOpen? || p.EnterDup? || p.EnterClose?
  }

  predicate EntersCall(p: FdProbe, sys: Sys) {
    match sys
    case Open => p.EnterOpen?
    case Dup(_, oldFd, arg) => p.EnterDup? && p.oldFd == oldFd && p.requested == arg
    case Close(fd) => p.EnterClose? && p.fd == fd
  }

  predicate ExitsCall(p: FdProbe, sys: Sys) {
    p.RawExit? || match sys case Open => p.ExitOpen? case Dup(_, _, _) => p.ExitDup? case Close(_) => p.ExitClose?
  }

  /** Exit probes of one call agree on its outcome, though libc and the kernel name
      failures differently. */
  predicate SameOutcome(sys: Sys, ret: int, ret': int) {
    if sys.Close? then (ret == 0 <==> ret' == 0) else ret == ret' || (ret < 0 && ret' < 0)
  }

  /** Entries fire before the kernel acts, exits after. The exit of a dup or close, and the
      raw exit of an open, need an entry seen before: every call is observed. */
  predicate AllowedProbe(ph: Phase, p: FdProbe) {
    && !ph.Idle? && ph.task == p.task
    && if IsEntry(p) then ph.Called? && EntersCall(p, ph.sys)
       else
         && !ph.Called? && ExitsCall(p, ph.sys) && SameOutcome(ph.sys, ph.ret, p.ret)
         && (ph.Effected? ==> ph.entered || p.ExitOpen?)
  }

  predicate Allowed(w: World, s: Step) {
    match s
    case Begin(t, sys) => PhaseOf(w, t.tid).Idle?
    case Happen(tid, ret) => var ph := PhaseOf(w, tid); ph.Called? && Permits(w.kernel, ph.task.pid, ph.sys, ret)
    case See(p) => AllowedProbe(PhaseOf(w, p.task.tid), p)
    case End(t) => var ph := PhaseOf(w, t.tid); ph.Returned? && !ph.rawDue
    case Foreign(key) => key !in w.kernel.open
    case Elsewhere(_) => true
  }

  /** The change the kernel makes at a step. */
  function DoneEffect(w: World, s: Step): Option<Effect> {
    match s
    case Happen(tid, ret) =>
      var ph := PhaseOf(w, tid);
      if ph.Called? then EffectOf(ph.task.pid, ph.sys, ret) else None
    case _ => None
  }

  function NextPhase(ph: Phase, p: FdProbe): Phase {
    match ph
    case Called(t, sys, entered) => Called(t, sys, entered || IsEntry(p))
    case Effected(t, sys, entered, ret) => Returned(t, sys, ret, sys.Open? && entered && !p.RawExit?)
    case Returned(t, sys, ret, rawDue) => Returned(t, sys, ret, rawDue && !p.RawExit?)
    case Idle => Idle
  }

  function Advance(w: World, s: Step): World
    requires Allowed(w, s)
  {
    match s
    case Begin(t, sys) => w.(phases := w.phases[t.tid := Called(t, sys, false)])
    case Happen(tid, ret) =>
      var ph, e := PhaseOf(w, tid), DoneEffect(w, s);
      World(KernelStep(w.kernel, e), w.phases[tid := Effected(ph.task, ph.sys, ph.entered, ret)],
            if e.Some? then w.flight + [Flight(tid, e.value)] else w.flight)
    case See(p) =>
      w.(phases := w.phases[p.task.tid := NextPhase(PhaseOf(w, p.task.tid), p)],
         flight := if IsEntry(p) then w.flight else Without(w.flight, p.task.tid))
    case End(t) => w.(phases := w.phases[t.tid := Idle])
    case Foreign(key) => w.(kernel := w.kernel.(open := w.kernel.open + {key}))
    case Elsewhere(_) => w
  }

  /** What a step is to the tracker. */
  function MoveOf(s: Step): seq<Move> {
    match s
    case See(p) => [Fired(p)]
    case Elsewhere(op) => [Outside(op)]
    case _ => []
  }

  function Track(f: Fds, s: Step): Fds {
    if MoveOf(s) == [] then f else ApplyMove(f, MoveOf(s)[0])
  }

  predicate Follows(steps: seq<Step>)
    decreases |steps|, 0
  {
    steps == [] || (Follows(steps[..|steps| - 1]) && Allowed(WorldAfter(steps[..|steps| - 1]), steps[|steps| - 1]))
  }

  function WorldAfter(steps: seq<Step>): World
    requires Follows(steps)
    decreases |steps|, 1
  {
    if steps == [] then FIRST_WORLD else Advance(WorldAfter(steps[..|steps| - 1]), steps[|steps| - 1])
  }

  function TrackedAfter(steps: seq<Step>): Fds {
    if steps == [] then EMPTY_FDS else Track(TrackedAfter(steps[..|steps| - 1]), steps[|steps| - 1])
  }

  // ----- what the tracker records at each step -----

  /** An exit after the first records again only for an open: at a library or kernel
      return always, at the raw exit when its entry is still pending. */
  predicate Rerecords(ph: Phase, p: FdProbe) {
    ph.Returned? && !IsEntry(p) && ph.sys.Open? && (p.ExitOpen? || ph.rawDue)
  }

  /** The change the tracker records at a step: that of the call whose exit it sees. */
  function SeenEffect(w: World, s: Step): Option<Effect> {
    if !s.See? || IsEntry(s.probe) then None
    else
      var ph := PhaseOf(w, s.probe.task.tid);
      if ph.Effected? || Rerecords(ph, s.probe) then EffectOf(ph.task.pid, ph.sys, ph.ret) else None
  }

  /** The key sets of the maps take the change. */
  ghost predicate Records(f: Fds, f': Fds, e: Option<Effect>) {
    match e
    case None => f'.open.Keys == f.open.Keys && f'.closed.Keys == f.closed.Keys
    case Some(Effect(key, Obtain)) =>
      f'.open.Keys == f.open.Keys + {key} && f'.closed.Keys == f.closed.Keys - {key}
    case Some(Effect(key, GiveUp)) =>
      && f'.open.Keys == f.open.Keys - {key}
      && f'.closed.Keys == if key in f.open then f.closed.Keys + {key} else f.closed.Keys
  }

  /** The pending maps hold exactly what the thread's call put there. */
  ghost predicate ThreadAgrees(f: Fds, tid: u32, ph: Phase) {
    var waits := (ph.Called? || ph.Effected?) && ph.entered;
    && (tid in f.pendingClose <==> waits && ph.sys.Close?)
    && (tid in f.pendingDup <==> waits && ph.sys.Dup?)
    && (tid in f.pendingOpen <==> (waits && ph.sys.Open?) || (ph.Returned? && ph.rawDue))
    && (tid in f.pendingClose ==> f.pendingClose[tid].fd == ph.sys.fd)
    && (tid in f.pendingDup ==> f.pendingDup[tid].oldFd == ph.sys.oldFd && f.pendingDup[tid].requested == ph.sys.arg)
    && (ph.Returned? && ph.rawDue ==> ph.sys.Open?)
    && (ph.Effected? || ph.Returned? ==> Possible(ph.sys, ph.ret))
  }

  /** An exit probe with nothing pending on its thread changes nothing at all. */
  lemma SpentExitIsSilent(f: Fds, p: FdProbe)
    requires p.ExitDup? || p.ExitClose? || p.RawExit?
    requires p.task.tid !in f.pendingClose && p.task.tid !in f.pendingDup && p.task.tid !in f.pendingOpen
    ensures ApplyFd(f, p) == f
  {
  }

  /** The pending maps agree but for the entries of one thread. */
  ghost predicate OthersKept(f: Fds, f': Fds, tid: u32) {
    && f'.pendingClose - {tid} == f.pendingClose - {tid}
    && f'.pendingDup - {tid} == f.pendingDup - {tid}
    && f'.pendingOpen - {tid} == f.pendingOpen - {tid}
  }

  lemma DupReturnOthersKept(f: Fds, t: Task, ret: int, env: FdEnv)
    ensures OthersKept(f, DupReturn(f, t, ret, env), t.tid)
  {
    assert forall m: map<u32, PendingDup> :: m - {t.tid} - {t.tid} == m - {t.tid};
  }

  lemma CloseReturnOthersKept(f: Fds, t: Task, ret: int, env: FdEnv)
    ensures OthersKept(f, CloseReturn(f, t, ret, env), t.tid)
  {
    assert forall m: map<u32, PendingClose> :: m - {t.tid} - {t.tid} == m - {t.tid};
  }

  lemma ProbeOthersKept(f: Fds, p: FdProbe)
    ensures OthersKept(f, ApplyFd(f, p), p.task.tid)
  {
    match p
    case ExitDup(t, ret, env) => DupReturnOthersKept(f, t, ret, env);
    case ExitClose(t, ret, env) => CloseReturnOthersKept(f, t, ret, env);
    case RawExit(t, ret, env) =>
      var f1 := if t.tid in f.pendingOpen then
        OpenReturn(f.(pendingOpen := f.pendingOpen - {t.tid}), t, ret, f.pendingOpen[t.tid], env)
      else f;
      assert OthersKept(f, f1, t.tid);
      DupReturnOthersKept(f1, t, ret, env);
      CloseReturnOthersKept(DupReturn(f1, t, ret, env), t, ret, env);
    case _ =>
  }

  lemma OthersStayInAgreement(f: Fds, f': Fds, own: u32, tid: u32, ph: Phase)
    requires OthersKept(f, f', own) && tid != own && ThreadAgrees(f, tid, ph)
    ensures ThreadAgrees(f', tid, ph)
  {
    assert tid in f'.pendingClose <==> tid in f'.pendingClose - {own};
    assert tid in f'.pendingDup <==> tid in f'.pendingDup - {own};
    assert tid in f'.pendingOpen <==> tid in f'.pendingOpen - {own};
    assert tid in f.pendingClose ==> (f.pendingClose - {own})[tid] == f.pendingClose[tid];
    assert tid in f.pendingDup ==> (f.pendingDup - {own})[tid] == f.pendingDup[tid];
  }

  lemma RawExitIsSingle(f: Fds, t: Task, ret: int, env: FdEnv)
    requires t.tid !in f.pendingOpen
    ensures t.tid !in f.pendingDup ==> RawReturn(f, t, ret, env) == CloseReturn(f, t, ret, env)
    ensures t.tid !in f.pendingClose ==> RawReturn(f, t, ret, env) == DupReturn(f, t, ret, env)
  {
  }

  lemma CloseRecords(f: Fds, t: Task, ret: int, env: FdEnv)
    requires t.tid in f.pendingClose && (ret == 0 ==> f.pendingClose[t.tid].fd >= 0)
    ensures var f' := CloseReturn(f, t, ret, env);
      && Records(f, f', EffectOf(t.pid, Close(f.pendingClose[t.tid].fd), ret))
      && f'.pendingClose == f.pendingClose - {t.tid}
      && f'.pendingDup == f.pendingDup && f'.pendingOpen == f.pendingOpen
  {
  }

  lemma DupRecords(f: Fds, t: Task, kind: DupKind, ret: int, env: FdEnv)
    requires t.tid in f.pendingDup
    requires Possible(Dup(kind, f.pendingDup[t.tid].oldFd, f.pendingDup[t.tid].requested), ret)
    ensures var f' := DupReturn(f, t, ret, env);
      && Records(f, f', EffectOf(t.pid, Dup(kind, f.pendingDup[t.tid].oldFd, f.pendingDup[t.tid].requested), ret))
      && f'.pendingDup == f.pendingDup - {t.tid}
      && f'.pendingClose == f.pendingClose && f'.pendingOpen == f.pendingOpen
  {
  }

  /** An exit that records an open, first or late. */
  lemma OpenRecords(f: Fds, p: FdProbe)
    requires p.ExitOpen? || (p.RawExit? && p.task.tid in f.pendingOpen)
    requires p.task.tid !in f.pendingClose && p.task.tid !in f.pendingDup
    ensures var f' := ApplyFd(f, p);
      && Records(f, f', EffectOf(p.task.pid, Open, p.ret))
      && f'.pendingClose == f.pendingClose && f'.pendingDup == f.pendingDup
      && f'.pendingOpen == (if p.RawExit? then f.pendingOpen - {p.task.tid} else f.pendingOpen)
      && f'.chan.ring == f.chan.ring
  {
  }

  lemma SameOutcomeSameEffect(pid: u32, sys: Sys, ret: int, ret': int)
    requires Possible(sys, ret) && SameOutcome(sys, ret, ret')
    ensures EffectOf(pid, sys, ret') == EffectOf(pid, sys, ret)
    ensures sys.Dup? ==> Possible(sys, ret')
  {
  }

  lemma FirstExitRecords(f: Fds, p: FdProbe, ph: Phase)
    requires ThreadAgrees(f, p.task.tid, ph) && ph.Effected? && !IsEntry(p) && AllowedProbe(ph, p)
    ensures Records(f, ApplyFd(f, p), EffectOf(p.task.pid, ph.sys, ph.ret))
    ensures ThreadAgrees(ApplyFd(f, p), p.task.tid, NextPhase(ph, p))
  {
    SameOutcomeSameEffect(p.task.pid, ph.sys, ph.ret, p.ret);
    match ph.sys
    case Open => OpenRecords(f, p);
    case Dup(kind, _, _) =>
      RawExitIsSingle(f, p.task, p.ret, p.env);
      DupRecords(f, p.task, kind, p.ret, p.env);
    case Close(_) =>
      RawExitIsSingle(f, p.task, p.ret, p.env);
      CloseRecords(f, p.task, p.ret, p.env);
  }

  /** A late exit posts nothing, and changes nothing at all unless it records an open again. */
  lemma LateExitRecords(f: Fds, p: FdProbe, ph: Phase)
    requires ThreadAgrees(f, p.task.tid, ph) && ph.Returned? && !IsEntry(p) && AllowedProbe(ph, p)
    ensures Records(f, ApplyFd(f, p), if Rerecords(ph, p) then EffectOf(p.task.pid, ph.sys, ph.ret) else None)
    ensures ThreadAgrees(ApplyFd(f, p), p.task.tid, NextPhase(ph, p))
    ensures ApplyFd(f, p).chan.ring == f.chan.ring
    ensures !Rerecords(ph, p) ==> ApplyFd(f, p) == f
  {
    if Rerecords(ph, p) {
      SameOutcomeSameEffect(p.task.pid, ph.sys, ph.ret, p.ret);
      OpenRecords(f, p);
    } else {
      SpentExitIsSilent(f, p);
    }
  }

  // ----- runs keep threads and maps in step -----

  ghost predicate OnePerThread(flight: seq<Flight>) {
    forall i, j :: 0 <= i < j < |flight| ==> flight[i].tid != flight[j].tid
  }

  /** The calls in flight are those whose effect no exit has seen, one for each thread. */
  ghost predicate FlightAgrees(w: World) {
    && OnePerThread(w.flight)
    && forall tid: u32, e: Effect :: Flight(tid, e) in w.flight <==> InFlight(PhaseOf(w, tid), e)
  }

  predicate InFlight(ph: Phase, e: Effect) {
    ph.Effected? && EffectOf(ph.task.pid, ph.sys, ph.ret) == Some(e)
  }

  ghost predicate Coherent(f: Fds, w: World) {
    && f.open.Keys !! f.closed.Keys && w.kernel.held !! w.kernel.retired && w.kernel.held <= w.kernel.open
    && (forall key :: key in f.open ==> key.fd >= 0)
    && FlightAgrees(w)
    && forall tid: u32 :: ThreadAgrees(f, tid, PhaseOf(w, tid)) && Remembered(f, PhaseOf(w, tid))
  }

  /** A descriptor whose open was seen is in one of the maps from then on. */
  ghost predicate Remembered(f: Fds, ph: Phase) {
    ph.Returned? && ph.sys.Open? && GoodFd(ph.ret) ==>
      FdKey(ph.task.pid, ph.ret) in f.open || FdKey(ph.task.pid, ph.ret) in f.closed
  }

  lemma {:induction false} WithoutRemoves(flight: seq<Flight>, tid: u32)
    requires OnePerThread(flight)
    ensures forall x :: x in Without(flight, tid) <==> x in flight && x.tid != tid
    ensures OnePerThread(Without(flight, tid))
  {
    if flight != [] {
      var before, last := flight[..|flight| - 1], flight[|flight| - 1];
      WithoutRemoves(before, tid);
      var rest := Without(before, tid);
      forall i | 0 <= i < |rest| ensures rest[i].tid != last.tid {
        assert rest[i] in before;
      }
    }
  }

  lemma SeeRecords(f: Fds, w: World, p: FdProbe)
    requires ThreadAgrees(f, p.task.tid, PhaseOf(w, p.task.tid)) && Allowed(w, See(p))
    ensures Records(f, ApplyFd(f, p), SeenEffect(w, See(p)))
    ensures ThreadAgrees(ApplyFd(f, p), p.task.tid, PhaseOf(Advance(w, See(p)), p.task.tid))
  {
    var ph := PhaseOf(w, p.task.tid);
    if !IsEntry(p) {
      if ph.Effected? {
        FirstExitRecords(f, p, ph);
      } else {
        LateExitRecords(f, p, ph);
      }
    }
  }

  lemma FlightStep(w: World, s: Step)
    requires FlightAgrees(w) && Allowed(w, s)
    ensures FlightAgrees(Advance(w, s))
  {
    var w' := Advance(w, s);
    match s
    case See(p) =>
      WithoutRemoves(w.flight, p.task.tid);
      forall tid: u32, e: Effect ensures Flight(tid, e) in w'.flight <==> InFlight(PhaseOf(w', tid), e) {
        assert Flight(tid, e) in w.flight <==> InFlight(PhaseOf(w, tid), e);
      }
    case _ =>
      forall tid: u32, e: Effect ensures Flight(tid, e) in w'.flight <==> InFlight(PhaseOf(w', tid), e) {
        assert Flight(tid, e) in w.flight <==> InFlight(PhaseOf(w, tid), e);
      }
  }

  lemma PermitsPossible(k: Kernel, pid: u32, sys: Sys, ret: int)
    requires Permits(k, pid, sys, ret)
    ensures Possible(sys, ret)
  {
  }

  /** A probe of one thread leaves every other thread in agreement, and what it obtained known. */
  lemma OtherThreadKept(f: Fds, w: World, p: FdProbe, tid: u32)
    requires ThreadAgrees(f, tid, PhaseOf(w, tid)) && Remembered(f, PhaseOf(w, tid)) && tid != p.task.tid
    requires Records(f, ApplyFd(f, p), SeenEffect(w, See(p)))
    ensures ThreadAgrees(ApplyFd(f, p), tid, PhaseOf(w, tid)) && Remembered(ApplyFd(f, p), PhaseOf(w, tid))
  {
    ProbeOthersKept(f, p);
    OthersStayInAgreement(f, ApplyFd(f, p), p.task.tid, tid, PhaseOf(w, tid));
  }

  lemma ThreadStep(f: Fds, w: World, s: Step, tid: u32)
    requires ThreadAgrees(f, tid, PhaseOf(w, tid)) && Remembered(f, PhaseOf(w, tid)) && Allowed(w, s)
    requires s.See? ==> ThreadAgrees(f, s.probe.task.tid, PhaseOf(w, s.probe.task.tid))
    ensures ThreadAgrees(Track(f, s), tid, PhaseOf(Advance(w, s), tid))
    ensures Remembered(Track(f, s), PhaseOf(Advance(w, s), tid))
  {
    if s.See? {
      SeeRecords(f, w, s.probe);
      if tid != s.probe.task.tid {
        OtherThreadKept(f, w, s.probe, tid);
      }
    } else {
      KernelStepKept(f, w, s, tid);
    }
  }

  lemma KernelStepKept(f: Fds, w: World, s: Step, tid: u32)
    requires ThreadAgrees(f, tid, PhaseOf(w, tid)) && Remembered(f, PhaseOf(w, tid)) && Allowed(w, s) && !s.See?
    ensures ThreadAgrees(f, tid, PhaseOf(Advance(w, s), tid)) && Remembered(f, PhaseOf(Advance(w, s), tid))
  {
    if s.Happen? {
      PermitsPossible(w.kernel, PhaseOf(w, s.tid).task.pid, PhaseOf(w, s.tid).sys, s.ret);
    }
  }

  lemma StepRecords(f: Fds, w: World, s: Step)
    requires Allowed(w, s) && (s.See? ==> ThreadAgrees(f, s.probe.task.tid, PhaseOf(w, s.probe.task.tid)))
    ensures Records(f, Track(f, s), SeenEffect(w, s))
  {
    if s.See? {
      SeeRecords(f, w, s.probe);
    }
  }

  lemma StepCoherent(f: Fds, w: World, s: Step)
    requires Coherent(f, w) && Allowed(w, s)
    ensures Coherent(Track(f, s), Advance(w, s))
  {
    FlightStep(w, s);
    StepRecords(f, w, s);
    forall key | key in Track(f, s).open ensures key.fd >= 0 {
      assert key in Track(f, s).open.Keys;
    }
    forall tid: u32
      ensures ThreadAgrees(Track(f, s), tid, PhaseOf(Advance(w, s), tid))
      ensures Remembered(Track(f, s), PhaseOf(Advance(w, s), tid))
    {
      ThreadStep(f, w, s, tid);
    }
  }

  /** In every run the maps are disjoint and the pending maps follow the threads' calls. */
  lemma {:induction false} RunCoherent(steps: seq<Step>)
    requires Follows(steps)
    ensures Coherent(TrackedAfter(steps), WorldAfter(steps))
  {
    if steps != [] {
      var before := steps[..|steps| - 1];
      RunCoherent(before);
      StepCoherent(TrackedAfter(before), WorldAfter(before), steps[|steps| - 1]);
    }
  }
}
