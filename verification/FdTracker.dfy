/** The descriptor side of the heap tracker: the value of its maps, the effect of every
    probe on that value, and the class whose handlers update the maps in place. */
module FdTracker {
  import opened Words
  import opened Sentinel

  type s32 = n: int | -0x8000_0000 <= n < 0x8000_0000

  const FD_MAX: int := 0x7FFF_FFFF

  datatype FdStatus = FdOk | FdDoubleClose | FdInvalidClose | FdLeak

  function FdCode(s: FdStatus): nat {
    match s case FdOk => 0 case FdDoubleClose => 1 case FdInvalidClose => 2 case FdLeak => 3
  }

  datatype FdKey = FdKey(pid: u32, fd: s32)
  datatype FdInfo = FdInfo(openStack: int, closeStack: int, originStack: int)
  datatype PendingClose = PendingClose(fd: s32, stack: int)
  datatype PendingDup = PendingDup(oldFd: s32, requested: s32, stack: int)
  datatype FdEnv = FdEnv(stateOk: bool, ringOk: bool, stack: int)

  datatype FdProbe =
    | EnterOpen(task: Task, stack: int)
    | EnterDup(task: Task, oldFd: s32, requested: s32, stack: int)
    | EnterClose(task: Task, fd: s32, stack: int)
    | ExitOpen(task: Task, ret: int, env: FdEnv)
    | ExitDup(task: Task, ret: int, env: FdEnv)
    | ExitClose(task: Task, ret: int, env: FdEnv)
    | RawExit(task: Task, ret: int, env: FdEnv)

  datatype Fds = Fds(
    open: map<FdKey, FdInfo>, closed: map<FdKey, FdInfo>,
    pendingClose: map<u32, PendingClose>, pendingOpen: map<u32, int>, pendingDup: map<u32, PendingDup>,
    chan: Channel)

  const EMPTY_FDS: Fds := Fds(map[], map[], map[], map[], map[], EMPTY_CHANNEL)

  function Truncate32(n: int): s32 {
    var low := n % TWO32;
    if low > FD_MAX then low - TWO32 else low
  }

  predicate GoodFd(ret: int) {
    0 <= ret <= FD_MAX
  }

  function Arming(ch: Channel, pid: u32, stateOk: bool): Channel {
    ApplyOp(ApplyOp(ch, Create(pid, stateOk)), Arm(pid))
  }

  /** Recording an acquisition: open gains the key, closed loses it. */
  function Acquire(f: Fds, key: FdKey, info: FdInfo, stateOk: bool): Fds {
    f.(open := f.open[key := info], closed := f.closed - {key}, chan := Arming(f.chan, key.pid, stateOk))
  }

  function OpenReturn(f: Fds, t: Task, ret: int, stack: int, env: FdEnv): Fds {
    if !GoodFd(ret) then f
    else Acquire(f, FdKey(t.pid, ret), FdInfo(stack, -1, stack), env.stateOk)
  }

  function DupInfo(f: Fds, oldKey: FdKey, stack: int): FdInfo {
    if oldKey in f.open then
      var source := f.open[oldKey];
      FdInfo(stack, -1, if source.originStack < 0 then source.openStack else source.originStack)
    else FdInfo(stack, -1, stack)
  }

  function DupReturn(f: Fds, t: Task, ret: int, env: FdEnv): Fds {
    if t.tid !in f.pendingDup then f
    else
      var p := f.pendingDup[t.tid];
      var f1 := f.(pendingDup := f.pendingDup - {t.tid});
      if !GoodFd(ret) || p.oldFd < 0 || (p.requested == p.oldFd && ret == p.oldFd) then f1
      else Acquire(f1, FdKey(t.pid, ret), DupInfo(f, FdKey(t.pid, p.oldFd), p.stack), env.stateOk)
  }

  function CloseEvent(f: Fds, t: Task, p: PendingClose, ret: int, env: FdEnv): Event {
    var key := FdKey(t.pid, p.fd);
    BlankEvent(t).(
      etype := FdClose, fd := p.fd, addr := Wrap32(p.fd), bytesRet := Truncate32(ret),
      stackId := if p.stack < 0 then env.stack else p.stack,
      errno := FdCode(if key in f.closed then FdDoubleClose else FdInvalidClose),
      siteId := if key in f.closed then SiteOf(f.closed[key].openStack) else 0)
  }

  function CloseReturn(f: Fds, t: Task, ret: int, env: FdEnv): Fds {
    if t.tid !in f.pendingClose then f
    else
      var p := f.pendingClose[t.tid];
      var key := FdKey(t.pid, p.fd);
      var f1 := f.(pendingClose := f.pendingClose - {t.tid});
      if p.fd < 0 && ret == 0 then f1
      else if ret == 0 then
        if key in f.open then
          f1.(open := f.open - {key}, closed := f.closed[key := f.open[key].(closeStack := p.stack)])
        else f1
      else if key in f.open then f1
      else
        f1.(chan := ApplyOp(ApplyOp(f.chan, Create(t.pid, env.stateOk)),
                            Post(t, env.ringOk, CloseEvent(f, t, p, ret, env))))
  }

  function RawReturn(f: Fds, t: Task, ret: int, env: FdEnv): Fds {
    var f1 := if t.tid in f.pendingOpen then
      OpenReturn(f.(pendingOpen := f.pendingOpen - {t.tid}), t, ret, f.pendingOpen[t.tid], env)
    else f;
    CloseReturn(DupReturn(f1, t, ret, env), t, ret, env)
  }

  function ApplyFd(f: Fds, p: FdProbe): Fds {
    match p
    case EnterOpen(t, stack) => f.(pendingOpen := f.pendingOpen[t.tid := stack])
    case EnterDup(t, oldFd, requested, stack) =>
      f.(pendingDup := f.pendingDup[t.tid := PendingDup(oldFd, requested, stack)])
    case EnterClose(t, fd, stack) => f.(pendingClose := f.pendingClose[t.tid := PendingClose(fd, stack)])
    case ExitOpen(t, ret, env) => OpenReturn(f, t, ret, env.stack, env)
    case ExitDup(t, ret, env) => DupReturn(f, t, ret, env)
    case ExitClose(t, ret, env) => CloseReturn(f, t, ret, env)
    case RawExit(t, ret, env) => RawReturn(f, t, ret, env)
  }

  /** A probe of the tracker, or an operation of another program on the shared channel. */
  datatype Move = Fired(probe: FdProbe) | Outside(op: Op)

  function ApplyMove(f: Fds, m: Move): Fds {
    match m
    case Fired(p) => ApplyFd(f, p)
    case Outside(op) => f.(chan := ApplyOp(f.chan, op))
  }

  function RunMoves(ms: seq<Move>): Fds {
    if ms == [] then EMPTY_FDS else ApplyMove(RunMoves(ms[..|ms| - 1]), ms[|ms| - 1])
  }

  function Outsides(ops: seq<Op>): seq<Move> {
    seq(|ops|, i requires 0 <= i < |ops| => Outside(ops[i]))
  }

  lemma RunMovesAppend(ms: seq<Move>, m: Move)
    ensures RunMoves(ms + [m]) == ApplyMove(RunMoves(ms), m)
  {
    assert (ms + [m])[..|ms|] == ms;
  }

  lemma {:induction false} RunMovesOutsides(ms: seq<Move>, ops: seq<Op>)
    ensures RunMoves(ms + Outsides(ops)) == RunMoves(ms).(chan := ApplyOps(RunMoves(ms).chan, ops))
  {
    if ops == [] {
      assert ms + Outsides(ops) == ms;
    } else {
      var before := ops[..|ops| - 1];
      RunMovesOutsides(ms, before);
      RunMovesAppend(ms + Outsides(before), Outside(ops[|ops| - 1]));
      assert ms + Outsides(ops) == ms + Outsides(before) + [Outside(ops[|ops| - 1])];
    }
  }

  lemma OutsidesAppend(trace: seq<Move>, a: seq<Op>, b: seq<Op>)
    ensures trace + Outsides(a + b) == trace + Outsides(a) + Outsides(b)
  {
  }

  lemma NothingSince(trace: seq<Move>, log: seq<Op>)
    ensures trace + Outsides(log[|log|..]) == trace
  {
    assert log[|log|..] == [] && Outsides([]) == [];
  }

  /** The run so far, followed by what others did since. */
  lemma MovesGoOn(f: Fds, trace: seq<Move>, seen: nat, log: seq<Op>, log': seq<Op>)
    requires seen <= |log| && log <= log' && f.chan == ApplyOps(EMPTY_CHANNEL, log)
    requires f == RunMoves(trace + Outsides(log[seen..]))
    ensures trace + Outsides(log'[seen..]) == trace + Outsides(log[seen..]) + Outsides(log'[|log|..])
    ensures RunMoves(trace + Outsides(log'[seen..])) == f.(chan := ApplyOps(EMPTY_CHANNEL, log'))
  {
    LogGoesOn(log, log', seen);
    OutsidesAppend(trace, log[seen..], log'[|log|..]);
    RunMovesOutsides(trace + Outsides(log[seen..]), log'[|log|..]);
  }

  lemma OpenKeepsDisjoint(f: Fds, t: Task, ret: int, stack: int, env: FdEnv)
    requires f.open.Keys !! f.closed.Keys
    ensures OpenReturn(f, t, ret, stack, env).open.Keys !! OpenReturn(f, t, ret, stack, env).closed.Keys
  {
  }

  lemma DupKeepsDisjoint(f: Fds, t: Task, ret: int, env: FdEnv)
    requires f.open.Keys !! f.closed.Keys
    ensures DupReturn(f, t, ret, env).open.Keys !! DupReturn(f, t, ret, env).closed.Keys
  {
  }

  lemma CloseKeepsDisjoint(f: Fds, t: Task, ret: int, env: FdEnv)
    requires f.open.Keys !! f.closed.Keys
    ensures CloseReturn(f, t, ret, env).open.Keys !! CloseReturn(f, t, ret, env).closed.Keys
  {
  }

  lemma ProbeKeepsDisjoint(f: Fds, p: FdProbe)
    requires f.open.Keys !! f.closed.Keys
    ensures ApplyFd(f, p).open.Keys !! ApplyFd(f, p).closed.Keys
  {
    match p
    case ExitOpen(t, ret, env) => OpenKeepsDisjoint(f, t, ret, env.stack, env);
    case ExitDup(t, ret, env) => DupKeepsDisjoint(f, t, ret, env);
    case ExitClose(t, ret, env) => CloseKeepsDisjoint(f, t, ret, env);
    case RawExit(t, ret, env) => RawKeepsDisjoint(f, t, ret, env);
    case _ =>
  }

  lemma RawKeepsDisjoint(f: Fds, t: Task, ret: int, env: FdEnv)
    requires f.open.Keys !! f.closed.Keys
    ensures RawReturn(f, t, ret, env).open.Keys !! RawReturn(f, t, ret, env).closed.Keys
  {
    var f1 := f;
    if t.tid in f.pendingOpen {
      f1 := OpenReturn(f.(pendingOpen := f.pendingOpen - {t.tid}), t, ret, f.pendingOpen[t.tid], env);
      OpenKeepsDisjoint(f.(pendingOpen := f.pendingOpen - {t.tid}), t, ret, f.pendingOpen[t.tid], env);
    }
    DupKeepsDisjoint(f1, t, ret, env);
    CloseKeepsDisjoint(DupReturn(f1, t, ret, env), t, ret, env);
  }

  lemma {:induction false} MovesKeepDisjoint(ms: seq<Move>)
    ensures RunMoves(ms).open.Keys !! RunMoves(ms).closed.Keys
  {
    if ms != [] {
      MovesKeepDisjoint(ms[..|ms| - 1]);
      if ms[|ms| - 1].Fired? {
        ProbeKeepsDisjoint(RunMoves(ms[..|ms| - 1]), ms[|ms| - 1].probe);
      }
    }
  }

  /** The handlers that update the descriptor maps in place. A tracker keeps the run that
      brought it about, what other programs did to the shared channel included. */
  class Tracker {
    const chan: SentinelChannel
    var open: map<FdKey, FdInfo>
    var closed: map<FdKey, FdInfo>
    var pendingClose: map<u32, PendingClose>
    var pendingOpen: map<u32, int>
    var pendingDup: map<u32, PendingDup>

    /** The run up to the first `seen` operations of the channel; whatever came after them
        was the doing of others. */
    ghost var trace: seq<Move>
    ghost var seen: nat

    ghost function View(): Fds
      reads this, chan
    {
      Fds(open, closed, pendingClose, pendingOpen, pendingDup, chan.View())
    }

    ghost function Trace(): seq<Move>
      requires seen <= |chan.log|
      reads this, chan
    {
      trace + Outsides(chan.log[seen..])
    }

    ghost predicate Valid()
      reads this, chan
    {
      chan.Valid() && seen <= |chan.log| && View() == RunMoves(Trace())
    }

    lemma ValidMeansDisjoint()
      requires Valid()
      ensures open.Keys !! closed.Keys
    {
      MovesKeepDisjoint(Trace());
    }

    /** Other users of the channel leave the tracker valid. */
    twostate lemma OthersKeepValid()
      requires old(Valid()) && unchanged(this) && chan.Valid() && old(chan.log) <= chan.log
      ensures Valid() && Trace() == old(Trace()) + Outsides(chan.log[|old(chan.log)|..])
      ensures View() == old(View()).(chan := chan.View())
    {
      MovesGoOn(old(View()), trace, seen, old(chan.log), chan.log);
    }

    /** The run goes on by one probe of this tracker. */
    ghost method Log(before: seq<Move>, p: FdProbe)
      requires chan.Valid() && View() == ApplyFd(RunMoves(before), p)
      modifies this`trace, this`seen
      ensures Valid() && Trace() == before + [Fired(p)]
    {
      RunMovesAppend(before, Fired(p));
      ghost var view := View();
      trace, seen := before + [Fired(p)], |chan.log|;
      NothingSince(trace, chan.log);
      assert View() == view;
    }

    constructor (chan: SentinelChannel)
      requires chan.Valid()
      ensures this.chan == chan && Valid() && Trace() == Outsides(chan.log)
      ensures View() == EMPTY_FDS.(chan := chan.View())
    {
      this.chan := chan;
      open, closed, pendingClose, pendingOpen, pendingDup := map[], map[], map[], map[], map[];
      trace, seen := [], 0;
      new;
      RunMovesOutsides([], chan.log);
      assert [] + Outsides(chan.log[0..]) == [] + Outsides(chan.log);
    }

    method RememberOpen(t: Task, stack: int)
      requires Valid()
      modifies this
      ensures Valid() && View() == ApplyFd(old(View()), EnterOpen(t, stack))
      ensures Trace() == old(Trace()) + [Fired(EnterOpen(t, stack))]
    {
      ghost var before := Trace();
      pendingOpen := pendingOpen[t.tid := stack];
      Log(before, EnterOpen(t, stack));
    }

    method RememberDup(t: Task, oldFd: s32, requested: s32, stack: int)
      requires Valid()
      modifies this
      ensures Valid() && View() == ApplyFd(old(View()), EnterDup(t, oldFd, requested, stack))
      ensures Trace() == old(Trace()) + [Fired(EnterDup(t, oldFd, requested, stack))]
    {
      ghost var before := Trace();
      pendingDup := pendingDup[t.tid := PendingDup(oldFd, requested, stack)];
      Log(before, EnterDup(t, oldFd, requested, stack));
    }

    method RememberClose(t: Task, fd: s32, stack: int)
      requires Valid()
      modifies this
      ensures Valid() && View() == ApplyFd(old(View()), EnterClose(t, fd, stack))
      ensures Trace() == old(Trace()) + [Fired(EnterClose(t, fd, stack))]
    {
      ghost var before := Trace();
      pendingClose := pendingClose[t.tid := PendingClose(fd, stack)];
      Log(before, EnterClose(t, fd, stack));
    }

    method RecordAcquisition(key: FdKey, info: FdInfo, stateOk: bool)
      requires chan.Valid()
      modifies this`open, this`closed, chan
      ensures chan.Valid() && View() == Acquire(old(View()), key, info, stateOk)
    {
      var ok := chan.GetState(key.pid, stateOk);
      if ok {
        chan.SetArmed(key.pid);
      }
      closed := closed - {key};
      open := open[key := info];
    }

    method RecordOpenReturn(t: Task, ret: int, stack: int, env: FdEnv)
      requires chan.Valid()
      modifies this`open, this`closed, chan
      ensures chan.Valid() && View() == OpenReturn(old(View()), t, ret, stack, env)
    {
      if ret < 0 || ret > FD_MAX {
        return;
      }
      RecordAcquisition(FdKey(t.pid, ret), FdInfo(stack, -1, stack), env.stateOk);
    }

    method RecordDupReturn(t: Task, ret: int, env: FdEnv)
      requires chan.Valid()
      modifies this`open, this`closed, this`pendingDup, chan
      ensures chan.Valid() && View() == DupReturn(old(View()), t, ret, env)
    {
      if t.tid !in pendingDup {
        return;
      }
      var p := pendingDup[t.tid];
      pendingDup := pendingDup - {t.tid};
      if ret < 0 || ret > FD_MAX {
        return;
      }
      if p.oldFd < 0 {
        return;
      }
      if p.requested == p.oldFd && ret == p.oldFd {
        return;
      }
      var oldKey := FdKey(t.pid, p.oldFd);
      var info := FdInfo(p.stack, -1, p.stack);
      if oldKey in open {
        info := open[oldKey];
        info := info.(openStack := p.stack, closeStack := -1);
        if info.originStack < 0 {
          info := info.(originStack := open[oldKey].openStack);
        }
      }
      RecordAcquisition(FdKey(t.pid, ret), info, env.stateOk);
    }

    method RecordCloseReturn(t: Task, ret: int, env: FdEnv)
      requires chan.Valid()
      modifies this`open, this`closed, this`pendingClose, chan
      ensures chan.Valid() && View() == CloseReturn(old(View()), t, ret, env)
    {
      if t.tid !in pendingClose {
        return;
      }
      var p := pendingClose[t.tid];
      pendingClose := pendingClose - {t.tid};
      if p.fd < 0 && ret == 0 {
        return;
      }
      var key := FdKey(t.pid, p.fd);
      if ret == 0 {
        if key in open {
          var snapshot := open[key].(closeStack := p.stack);
          open := open - {key};
          closed := closed[key := snapshot];
        }
        return;
      }
      if key in open {
        return;
      }
      ReportFailedClose(t, p, ret, env);
    }

    method ReportFailedClose(t: Task, p: PendingClose, ret: int, env: FdEnv)
      requires chan.Valid()
      modifies chan
      ensures chan.Valid()
      ensures chan.View() == ApplyOp(ApplyOp(old(chan.View()), Create(t.pid, env.stateOk)),
                                     Post(t, env.ringOk, CloseEvent(old(View()), t, p, ret, env)))
    {
      var key := FdKey(t.pid, p.fd);
      var status, openStack := FdInvalidClose, -1;
      if key in closed {
        status := FdDoubleClose;
        openStack := closed[key].openStack;
      }
      var ok := chan.GetState(t.pid, env.stateOk);
      if !ok {
        return;
      }
      var stack := if p.stack < 0 then env.stack else p.stack;
      var evt := BlankEvent(t).(etype := FdClose, fd := p.fd, addr := Wrap32(p.fd), stackId := stack);
      evt := evt.(errno := FdCode(status), bytesRet := Truncate32(ret), siteId := SiteOf(openStack));
      var _ := chan.Emit(t, env.ringOk, evt);
    }

    // ----- the exit probes -----

    method OpenExit(t: Task, ret: int, env: FdEnv)
      requires Valid()
      modifies this, chan
      ensures Valid() && View() == ApplyFd(old(View()), ExitOpen(t, ret, env))
      ensures Trace() == old(Trace()) + [Fired(ExitOpen(t, ret, env))]
    {
      ghost var before := Trace();
      RecordOpenReturn(t, ret, env.stack, env);
      Log(before, ExitOpen(t, ret, env));
    }

    method DupExit(t: Task, ret: int, env: FdEnv)
      requires Valid()
      modifies this, chan
      ensures Valid() && View() == ApplyFd(old(View()), ExitDup(t, ret, env))
      ensures Trace() == old(Trace()) + [Fired(ExitDup(t, ret, env))]
    {
      ghost var before := Trace();
      RecordDupReturn(t, ret, env);
      Log(before, ExitDup(t, ret, env));
    }

    method CloseExit(t: Task, ret: int, env: FdEnv)
      requires Valid()
      modifies this, chan
      ensures Valid() && View() == ApplyFd(old(View()), ExitClose(t, ret, env))
      ensures Trace() == old(Trace()) + [Fired(ExitClose(t, ret, env))]
    {
      ghost var before := Trace();
      RecordCloseReturn(t, ret, env);
      Log(before, ExitClose(t, ret, env));
    }

    method RawSysExit(t: Task, ret: int, env: FdEnv)
      requires Valid()
      modifies this, chan
      ensures Valid() && View() == ApplyFd(old(View()), RawExit(t, ret, env))
      ensures Trace() == old(Trace()) + [Fired(RawExit(t, ret, env))]
    {
      ghost var before := Trace();
      if t.tid in pendingOpen {
        var stack := pendingOpen[t.tid];
        pendingOpen := pendingOpen - {t.tid};
        RecordOpenReturn(t, ret, stack, env);
      }
      RecordDupReturn(t, ret, env);
      RecordCloseReturn(t, ret, env);
      Log(before, RawExit(t, ret, env));
    }
  }
}
