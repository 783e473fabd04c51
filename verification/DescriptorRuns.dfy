/** When the descriptor maps agree with the kernel: exactly, at one moment and throughout a
    run, and what follows for verdicts and for repeated observation. */
module DescriptorRuns {
  import opened Words
  import opened Sentinel
  import opened FdTracker
  import opened Descriptors

  // ----- one descriptor, seen alone -----

  datatype Status = Never | Holding | Retired

  function StatusIn(open: set<FdKey>, closed: set<FdKey>, key: FdKey): Status {
    if key in open then Holding else if key in closed then Retired else Never
  }

  function TrackedStatus(f: Fds, key: FdKey): Status {
    StatusIn(f.open.Keys, f.closed.Keys, key)
  }

  function KernelStatus(w: World, key: FdKey): Status {
    StatusIn(w.kernel.held, w.kernel.retired, key)
  }

  function Changed(s: Status, c: Change): Status {
    match c
    case Obtain => Holding
    case GiveUp => if s.Holding? then Retired else s
  }

  function After(s: Status, cs: seq<Change>): Status {
    if cs == [] then s else Changed(After(s, cs[..|cs| - 1]), cs[|cs| - 1])
  }

  function Last(cs: seq<Change>): Change
    requires cs != []
  {
    cs[|cs| - 1]
  }

  /** Only the last change counts, and whether the descriptor was ever obtained. */
  lemma {:induction false} AfterIs(s: Status, cs: seq<Change>)
    ensures After(s, cs) ==
      if cs == [] then s
      else if Last(cs).Obtain? then Holding
      else if Obtain in cs || !s.Never? then Retired
      else Never
  {
    if cs != [] {
      var before := cs[..|cs| - 1];
      AfterIs(s, before);
      assert cs == before + [Last(cs)];
    }
  }

  lemma AfterOne(s: Status, c: Change)
    ensures After(s, [c]) == Changed(s, c)
  {
    assert [c][..|[c]| - 1] == [];
  }

  function ChangeAt(e: Option<Effect>, key: FdKey): seq<Change> {
    if e.Some? && e.value.key == key then [e.value.change] else []
  }

  lemma AfterAppend(s: Status, cs: seq<Change>, e: Option<Effect>, key: FdKey)
    ensures After(s, cs + ChangeAt(e, key)) == After(After(s, cs), ChangeAt(e, key))
  {
    if e.Some? && e.value.key == key {
      assert (cs + [e.value.change])[..|cs|] == cs && [e.value.change][..0] == [];
    } else {
      assert cs + [] == cs;
    }
  }

  lemma RecordedChange(f: Fds, f': Fds, e: Option<Effect>, key: FdKey)
    requires f.open.Keys !! f.closed.Keys && Records(f, f', e)
    ensures TrackedStatus(f', key) == After(TrackedStatus(f, key), ChangeAt(e, key))
  {
    assert forall c: Change :: [c][..0] == [];
    assert key in f.open <==> key in f.open.Keys;
    assert key in f'.open <==> key in f'.open.Keys;
  }

  lemma KernelChange(w: World, s: Step, key: FdKey)
    requires Allowed(w, s) && w.kernel.held !! w.kernel.retired
    ensures KernelStatus(Advance(w, s), key) == After(KernelStatus(w, key), ChangeAt(DoneEffect(w, s), key))
  {
    assert forall c: Change :: [c][..0] == [];
  }

  // ----- agreement at one moment -----

  /** The changes calls made to a descriptor, in the order in which they took effect. */
  function Done(steps: seq<Step>, key: FdKey): seq<Change>
    requires Follows(steps)
  {
    if steps == [] then []
    else
      var before := steps[..|steps| - 1];
      Done(before, key) + ChangeAt(DoneEffect(WorldAfter(before), steps[|steps| - 1]), key)
  }

  /** The changes exit probes showed of a descriptor, in the order in which they fired. */
  function Seen(steps: seq<Step>, key: FdKey): seq<Change>
    requires Follows(steps)
  {
    if steps == [] then []
    else
      var before := steps[..|steps| - 1];
      Seen(before, key) + ChangeAt(SeenEffect(WorldAfter(before), steps[|steps| - 1]), key)
  }

  lemma {:induction false} StatusFollows(steps: seq<Step>, key: FdKey)
    requires Follows(steps)
    ensures KernelStatus(WorldAfter(steps), key) == After(Never, Done(steps, key))
    ensures TrackedStatus(TrackedAfter(steps), key) == After(Never, Seen(steps, key))
  {
    if steps != [] {
      var before, s := steps[..|steps| - 1], steps[|steps| - 1];
      var f, w := TrackedAfter(before), WorldAfter(before);
      StatusFollows(before, key);
      RunCoherent(before);
      StepRecords(f, w, s);
      RecordedChange(f, Track(f, s), SeenEffect(w, s), key);
      KernelChange(w, s, key);
      AfterAppend(Never, Done(before, key), DoneEffect(w, s), key);
      AfterAppend(Never, Seen(before, key), SeenEffect(w, s), key);
    }
  }

  /** The last change shown is the last change made. */
  predicate EndAlike(seen: seq<Change>, done: seq<Change>) {
    if Obtain in seen && Obtain in done then Last(seen) == Last(done) else Obtain !in seen && Obtain !in done
  }

  /** In every run, whatever overtakes whatever, the maps and the kernel agree on a
      descriptor exactly when the last change seen is of the kind of the last change made;
      it is in the open map exactly when an acquisition was seen last. */
  lemma AgreesIffLastSeenIsLastDone(steps: seq<Step>, key: FdKey)
    requires Follows(steps)
    ensures var seen, done := Seen(steps, key), Done(steps, key);
      && (TrackedStatus(TrackedAfter(steps), key) == KernelStatus(WorldAfter(steps), key) <==> EndAlike(seen, done))
      && (key in TrackedAfter(steps).open <==> seen != [] && Last(seen).Obtain?)
      && (key in WorldAfter(steps).kernel.held <==> done != [] && Last(done).Obtain?)
  {
    StatusFollows(steps, key);
    AfterIs(Never, Seen(steps, key));
    AfterIs(Never, Done(steps, key));
  }

  // ----- agreement throughout a run -----

  /** The changes in flight on one descriptor, oldest first. */
  function Flying(flight: seq<Flight>, key: FdKey): seq<Change> {
    if flight == [] then []
    else Flying(flight[..|flight| - 1], key) + ChangeAt(Some(flight[|flight| - 1].effect), key)
  }

  /** The kernel is ahead of the maps by exactly the calls in flight. */
  predicate AgreesOn(f: Fds, w: World, key: FdKey) {
    After(TrackedStatus(f, key), Flying(w.flight, key)) == KernelStatus(w, key)
  }

  ghost predicate Agrees(f: Fds, w: World) {
    forall key: FdKey :: AgreesOn(f, w, key)
  }

  /** No exit probe shows the newest of the calls in flight on a descriptor before an
      older one of the other kind, and an open that is recorded again finds its descriptor
      held, or another call on it in flight. */
  predicate Orderly(w: World, s: Step) {
    s.See? && !IsEntry(s.probe) && SeenEffect(w, s).Some? ==>
      var tid, key := s.probe.task.tid, SeenEffect(w, s).value.key;
      var flying := Flying(w.flight, key);
      if PhaseOf(w, tid).Effected? then
        var rest := Flying(Without(w.flight, tid), key);
        flying != [] && (rest == [] || Last(rest) == Last(flying))
      else flying != [] || key in w.kernel.held
  }

  lemma {:induction false} OthersStayInFlight(flight: seq<Flight>, tid: u32, key: FdKey)
    requires forall x :: x in flight && x.tid == tid ==> x.effect.key != key
    ensures Flying(Without(flight, tid), key) == Flying(flight, key)
  {
    if flight != [] {
      var before, last := flight[..|flight| - 1], flight[|flight| - 1];
      OthersStayInFlight(before, tid, key);
      if last.tid != tid {
        var rest := Without(before, tid);
        assert (rest + [last])[..|rest|] == rest;
      }
    }
  }

  /** Taking a call out of flight removes its change from those of its descriptor. */
  lemma {:induction false} OwnLeavesFlight(flight: seq<Flight>, x: Flight) returns (a: seq<Change>, b: seq<Change>)
    requires OnePerThread(flight) && x in flight
    ensures Flying(flight, x.effect.key) == a + [x.effect.change] + b
    ensures Flying(Without(flight, x.tid), x.effect.key) == a + b
  {
    var before, last := flight[..|flight| - 1], flight[|flight| - 1];
    var key := x.effect.key;
    if last == x {
      OthersStayInFlight(before, x.tid, key);
      a, b := Flying(before, key), [];
      assert a + b == a && a + [x.effect.change] + b == a + [x.effect.change];
    } else {
      a, b := OwnLeavesFlight(before, x);
      var rest, more := Without(before, x.tid), ChangeAt(Some(last.effect), key);
      assert last.tid != x.tid;
      assert (rest + [last])[..|rest|] == rest;
      assert a + [x.effect.change] + b + more == a + [x.effect.change] + (b + more) && a + b + more == a + (b + more);
      b := b + more;
    }
  }

  /** Seeing the change between `a` and `b` first ends alike exactly when the newest change
      left is of the kind of the newest there was. */
  lemma SeenEarly(s: Status, a: seq<Change>, c: Change, b: seq<Change>)
    ensures After(Changed(s, c), a + b) == After(s, a + [c] + b) <==>
      (a + b == [] || Last(a + b) == Last(a + [c] + b))
  {
    AfterIs(Changed(s, c), a + b);
    AfterIs(s, a + [c] + b);
    assert Obtain in a + [c] + b <==> Obtain in a + b || c == Obtain;
    if b != [] {
      assert Last(a + b) == Last(b) && Last(a + [c] + b) == Last(b);
    } else {
      assert a + b == a && a + [c] + b == a + [c];
    }
  }

  lemma FirstExitKeepsIff(f: Fds, w: World, p: FdProbe, x: Flight, key: FdKey)
    requires Coherent(f, w) && Allowed(w, See(p)) && x in w.flight && x.tid == p.task.tid
    requires SeenEffect(w, See(p)) == Some(x.effect) && PhaseOf(w, x.tid).Effected?
    requires AgreesOn(f, w, key)
    ensures AgreesOn(ApplyFd(f, p), Advance(w, See(p)), key) <==> (key == x.effect.key ==> Orderly(w, See(p)))
  {
    StepRecords(f, w, See(p));
    RecordedChange(f, ApplyFd(f, p), Some(x.effect), key);
    if key == x.effect.key {
      var a, b := OwnLeavesFlight(w.flight, x);
      assert [x.effect.change][..0] == [];
      SeenEarly(TrackedStatus(f, key), a, x.effect.change, b);
    } else {
      forall y | y in w.flight && y.tid == x.tid ensures y == x {
      }
      OthersStayInFlight(w.flight, x.tid, key);
    }
  }

  /** Recording a descriptor again matters exactly when it was given up and nothing is in flight. */
  lemma SeenAgain(s: Status, flying: seq<Change>)
    requires !s.Never?
    ensures After(Holding, flying) == After(s, flying) <==> flying != [] || s.Holding?
  {
    AfterIs(s, flying);
    AfterIs(Holding, flying);
  }

  lemma LateStatus(f: Fds, w: World, p: FdProbe, e: Effect, key: FdKey)
    requires Coherent(f, w) && Allowed(w, See(p)) && SeenEffect(w, See(p)) == Some(e)
    requires !IsEntry(p) && PhaseOf(w, p.task.tid).Returned?
    ensures TrackedStatus(ApplyFd(f, p), key) == if key == e.key then Holding else TrackedStatus(f, key)
    ensures key == e.key ==> !TrackedStatus(f, key).Never?
  {
    StepRecords(f, w, See(p));
    RecordedChange(f, ApplyFd(f, p), Some(e), key);
    assert [e.change][..0] == [];
    assert Remembered(f, PhaseOf(w, p.task.tid));
  }

  lemma LateExitKeepsIff(f: Fds, w: World, p: FdProbe, e: Effect, key: FdKey)
    requires Coherent(f, w) && Allowed(w, See(p)) && SeenEffect(w, See(p)) == Some(e)
    requires !IsEntry(p) && PhaseOf(w, p.task.tid).Returned?
    requires AgreesOn(f, w, key)
    ensures AgreesOn(ApplyFd(f, p), Advance(w, See(p)), key) <==> (key == e.key ==> Orderly(w, See(p)))
  {
    LeavesOthersFlying(w, p.task.tid, key);
    LateStatus(f, w, p, e, key);
    if key == e.key {
      SeenAgain(TrackedStatus(f, key), Flying(w.flight, key));
    }
  }

  /** Away from the exit of a call that changed something, agreement carries over. */
  lemma OtherStepsAgree(f: Fds, w: World, s: Step, key: FdKey)
    requires Coherent(f, w) && Allowed(w, s) && SeenEffect(w, s).None?
    requires AgreesOn(f, w, key)
    ensures AgreesOn(Track(f, s), Advance(w, s), key)
  {
    StepRecords(f, w, s);
    KernelChange(w, s, key);
    match s
    case See(p) =>
      if !IsEntry(p) {
        LeavesOthersFlying(w, p.task.tid, key);
      }
      RecordedChange(f, Track(f, s), None, key);
    case Happen(tid, ret) =>
      var e := DoneEffect(w, s);
      if e.Some? {
        assert Advance(w, s).flight[..|w.flight|] == w.flight;
      }
      AfterAppend(TrackedStatus(f, key), Flying(w.flight, key), e, key);
    case _ =>
  }

  /** A thread with nothing in flight leaves the flight as it is. */
  lemma LeavesOthersFlying(w: World, tid: u32, key: FdKey)
    requires FlightAgrees(w) && forall e :: !InFlight(PhaseOf(w, tid), e)
    ensures Flying(Without(w.flight, tid), key) == Flying(w.flight, key)
  {
    forall x | x in w.flight ensures x.tid != tid {
      assert Flight(x.tid, x.effect) in w.flight;
    }
    OthersStayInFlight(w.flight, tid, key);
  }

  lemma StepAgreesOn(f: Fds, w: World, s: Step, key: FdKey)
    requires Coherent(f, w) && Allowed(w, s) && AgreesOn(f, w, key)
    ensures AgreesOn(Track(f, s), Advance(w, s), key)
      <==> (SeenEffect(w, s).Some? && key == SeenEffect(w, s).value.key ==> Orderly(w, s))
  {
    if SeenEffect(w, s).None? {
      OtherStepsAgree(f, w, s, key);
    } else {
      var tid, e := s.probe.task.tid, SeenEffect(w, s).value;
      if PhaseOf(w, tid).Effected? {
        assert Flight(tid, e) in w.flight;
        FirstExitKeepsIff(f, w, s.probe, Flight(tid, e), key);
      } else {
        LateExitKeepsIff(f, w, s.probe, e, key);
      }
    }
  }

  lemma StepAgreesIff(f: Fds, w: World, s: Step)
    requires Coherent(f, w) && Agrees(f, w) && Allowed(w, s)
    ensures Agrees(Track(f, s), Advance(w, s)) <==> Orderly(w, s)
  {
    forall key: FdKey
      ensures AgreesOn(Track(f, s), Advance(w, s), key)
        <==> (SeenEffect(w, s).Some? && key == SeenEffect(w, s).value.key ==> Orderly(w, s))
    {
      assert AgreesOn(f, w, key);
      StepAgreesOn(f, w, s, key);
    }
    if !Orderly(w, s) {
      assert !AgreesOn(Track(f, s), Advance(w, s), SeenEffect(w, s).value.key);
    }
  }

  /** The maps agree with the kernel, up to calls in flight, after the run and each prefix. */
  ghost predicate AlwaysAgrees(steps: seq<Step>)
    requires Follows(steps)
  {
    Agrees(TrackedAfter(steps), WorldAfter(steps)) && (steps != [] ==> AlwaysAgrees(steps[..|steps| - 1]))
  }

  predicate AlwaysOrderly(steps: seq<Step>)
    requires Follows(steps)
  {
    steps != [] ==>
      AlwaysOrderly(steps[..|steps| - 1]) && Orderly(WorldAfter(steps[..|steps| - 1]), steps[|steps| - 1])
  }

  /** For every run of threads making calls, seen by any number of probes: the maps follow
      the kernel throughout, up to the calls in flight, exactly when the run is orderly. */
  lemma {:induction false} OpenFdsRefineKernelIff(steps: seq<Step>)
    requires Follows(steps)
    ensures AlwaysAgrees(steps) <==> AlwaysOrderly(steps)
  {
    if steps == [] {
    } else {
      var before := steps[..|steps| - 1];
      OpenFdsRefineKernelIff(before);
      if AlwaysAgrees(before) {
        RunCoherent(before);
        StepAgreesIff(TrackedAfter(before), WorldAfter(before), steps[|steps| - 1]);
      }
    }
  }

  /** So with nothing in flight on a descriptor of an orderly run, the open map holds it
      exactly when the kernel has it open from a tracked call, and the closed map exactly
      when a tracked close gave it up and no tracked call obtained it again. */
  lemma QuietDescriptorAgrees(steps: seq<Step>, key: FdKey)
    requires Follows(steps) && AlwaysOrderly(steps) && Flying(WorldAfter(steps).flight, key) == []
    ensures var f, k := TrackedAfter(steps), WorldAfter(steps).kernel;
      (key in f.open <==> key in k.held) && (key in f.closed <==> key in k.retired)
  {
    OpenFdsRefineKernelIff(steps);
    RunCoherent(steps);
    var f, w := TrackedAfter(steps), WorldAfter(steps);
    assert AgreesOn(f, w, key);
    assert key in f.open <==> key in f.open.Keys;
    assert key in f.closed <==> key in f.closed.Keys;
  }

  // ----- calls kept apart -----

  /** A call takes effect on a descriptor only when no other is in flight on it, and an open
      recorded again finds its descriptor held with nothing in flight on it. */
  predicate Apart(w: World, s: Step) {
    && (DoneEffect(w, s).Some? ==> Flying(w.flight, DoneEffect(w, s).value.key) == [])
    && (SeenEffect(w, s).Some? && PhaseOf(w, s.probe.task.tid).Returned? ==>
          SeenEffect(w, s).value.key in w.kernel.held && Flying(w.flight, SeenEffect(w, s).value.key) == [])
  }

  predicate AlwaysApart(steps: seq<Step>)
    requires Follows(steps)
  {
    steps != [] ==> AlwaysApart(steps[..|steps| - 1]) && Apart(WorldAfter(steps[..|steps| - 1]), steps[|steps| - 1])
  }

  ghost predicate Single(w: World) {
    forall key: FdKey :: |Flying(w.flight, key)| <= 1
  }

  lemma {:induction false} FlyingShrinks(flight: seq<Flight>, tid: u32, key: FdKey)
    ensures |Flying(Without(flight, tid), key)| <= |Flying(flight, key)|
  {
    if flight != [] {
      var rest, last := Without(flight[..|flight| - 1], tid), flight[|flight| - 1];
      FlyingShrinks(flight[..|flight| - 1], tid, key);
      assert (rest + [last])[..|rest|] == rest;
    }
  }

  lemma ApartStep(f: Fds, w: World, s: Step)
    requires Coherent(f, w) && Single(w) && Allowed(w, s) && Apart(w, s)
    ensures Single(Advance(w, s)) && Orderly(w, s)
  {
    var w' := Advance(w, s);
    forall key: FdKey ensures |Flying(w'.flight, key)| <= 1 {
      assert |Flying(w.flight, key)| <= 1;
      if s.See? {
        FlyingShrinks(w.flight, s.probe.task.tid, key);
      } else if s.Happen? && DoneEffect(w, s).Some? {
        assert w'.flight[..|w.flight|] == w.flight;
      }
    }
    if s.See? && SeenEffect(w, s).Some? && PhaseOf(w, s.probe.task.tid).Effected? {
      var x := Flight(s.probe.task.tid, SeenEffect(w, s).value);
      assert x in w.flight;
      var a, b := OwnLeavesFlight(w.flight, x);
      assert |Flying(w.flight, x.effect.key)| <= 1;
      assert a + b == [];
    }
  }

  /** Runs whose calls on a descriptor are kept apart are orderly. */
  lemma {:induction false} ApartIsOrderly(steps: seq<Step>)
    requires Follows(steps) && AlwaysApart(steps)
    ensures AlwaysOrderly(steps) && Single(WorldAfter(steps))
  {
    if steps != [] {
      var before := steps[..|steps| - 1];
      ApartIsOrderly(before);
      RunCoherent(before);
      ApartStep(TrackedAfter(before), WorldAfter(before), steps[|steps| - 1]);
    }
  }

  // ----- runs that disagree -----

  /** A run, where it leads, and what the tracker then has of one descriptor. */
  ghost predicate Leads(steps: seq<Step>, key: FdKey, w: World, status: Status) {
    Follows(steps) && WorldAfter(steps) == w && TrackedStatus(TrackedAfter(steps), key) == status
  }

  lemma PlayOne(steps: seq<Step>, key: FdKey, w: World, status: Status, s: Step, w': World)
    requires Leads(steps, key, w, status) && Allowed(w, s) && Advance(w, s) == w'
    ensures Leads(steps + [s], key, w', After(status, ChangeAt(SeenEffect(w, s), key)))
  {
    assert (steps + [s])[..|steps|] == steps;
    RunCoherent(steps);
    StepRecords(TrackedAfter(steps), w, s);
    RecordedChange(TrackedAfter(steps), Track(TrackedAfter(steps), s), SeenEffect(w, s), key);
  }

  lemma PlayUnseen(steps: seq<Step>, key: FdKey, w: World, status: Status, s: Step, w': World)
    requires Leads(steps, key, w, status) && Allowed(w, s) && Advance(w, s) == w' && SeenEffect(w, s).None?
    ensures Leads(steps + [s], key, w', status)
  {
    PlayOne(steps, key, w, status, s, w');
  }

  lemma PlaySeen(steps: seq<Step>, key: FdKey, w: World, status: Status, s: Step, w': World, c: Change)
    requires Leads(steps, key, w, status) && Allowed(w, s) && Advance(w, s) == w'
    requires SeenEffect(w, s) == Some(Effect(key, c))
    ensures Leads(steps + [s], key, w', Changed(status, c))
  {
    PlayOne(steps, key, w, status, s, w');
    AfterOne(status, c);
  }

  /** Thread `t` opens the descriptor and is seen to. */
  function OpenSeen(t: Task, fd: s32, env: FdEnv): seq<Step> {
    [Begin(t, Open)] + [Happen(t.tid, fd)] + [See(ExitOpen(t, fd, env))]
  }

  /** Thread `t` closes the descriptor and is not seen to yet. */
  function CloseDone(t: Task, fd: s32): seq<Step> {
    [Begin(t, Close(fd))] + [See(EnterClose(t, fd, 0))] + [Happen(t.tid, 0)]
  }

  lemma OpenSteps(w: World, t: Task, fd: s32, env: FdEnv) returns (w1: World, w2: World)
    requires fd >= 0 && PhaseOf(w, t.tid).Idle? && FdKey(t.pid, fd) !in w.kernel.open
    requires Without(w.flight, t.tid) == w.flight
    ensures var e := Effect(FdKey(t.pid, fd), Obtain);
      && Allowed(w, Begin(t, Open)) && Advance(w, Begin(t, Open)) == w1 && SeenEffect(w, Begin(t, Open)).None?
      && Allowed(w1, Happen(t.tid, fd)) && Advance(w1, Happen(t.tid, fd)) == w2 && SeenEffect(w1, Happen(t.tid, fd)).None?
      && Allowed(w2, See(ExitOpen(t, fd, env))) && SeenEffect(w2, See(ExitOpen(t, fd, env))) == Some(e)
      && Advance(w2, See(ExitOpen(t, fd, env))) ==
           World(KernelStep(w.kernel, Some(e)), w.phases[t.tid := Returned(t, Open, fd, false)], w.flight)
  {
    var e := Effect(FdKey(t.pid, fd), Obtain);
    w1 := w.(phases := w.phases[t.tid := Called(t, Open, false)]);
    w2 := World(KernelStep(w.kernel, Some(e)), w.phases[t.tid := Effected(t, Open, false, fd)],
                w.flight + [Flight(t.tid, e)]);
    assert (w.flight + [Flight(t.tid, e)])[..|w.flight|] == w.flight;
  }

  lemma CloseSteps(w: World, t: Task, fd: s32) returns (w1: World, w2: World)
    requires fd >= 0 && PhaseOf(w, t.tid).Idle? && FdKey(t.pid, fd) in w.kernel.open
    ensures var e := Effect(FdKey(t.pid, fd), GiveUp);
      var begin, enter, happen := Begin(t, Close(fd)), See(EnterClose(t, fd, 0)), Happen(t.tid, 0);
      && Allowed(w, begin) && Advance(w, begin) == w1 && SeenEffect(w, begin).None?
      && Allowed(w1, enter) && Advance(w1, enter) == w2 && SeenEffect(w1, enter).None?
      && Allowed(w2, happen) && SeenEffect(w2, happen).None?
      && Advance(w2, happen) ==
           World(KernelStep(w.kernel, Some(e)), w.phases[t.tid := Effected(t, Close(fd), true, 0)],
                 w.flight + [Flight(t.tid, e)])
  {
    w1 := w.(phases := w.phases[t.tid := Called(t, Close(fd), false)]);
    w2 := w.(phases := w.phases[t.tid := Called(t, Close(fd), true)]);
  }

  lemma OpenSeenLeads(steps: seq<Step>, w: World, status: Status, t: Task, fd: s32, env: FdEnv)
    requires fd >= 0 && PhaseOf(w, t.tid).Idle? && FdKey(t.pid, fd) !in w.kernel.open
    requires Leads(steps, FdKey(t.pid, fd), w, status) && Without(w.flight, t.tid) == w.flight
    ensures var key := FdKey(t.pid, fd);
      Leads(steps + OpenSeen(t, fd, env), key,
            World(KernelStep(w.kernel, Some(Effect(key, Obtain))), w.phases[t.tid := Returned(t, Open, fd, false)],
                  w.flight),
            Holding)
  {
    var key := FdKey(t.pid, fd);
    var w1, w2 := OpenSteps(w, t, fd, env);
    var begin, happen, exit := Begin(t, Open), Happen(t.tid, fd), See(ExitOpen(t, fd, env));
    PlayUnseen(steps, key, w, status, begin, w1);
    PlayUnseen(steps + [begin], key, w1, status, happen, w2);
    PlaySeen(steps + [begin] + [happen], key, w2, status, exit, Advance(w2, exit), Obtain);
    assert steps + OpenSeen(t, fd, env) == steps + [begin] + [happen] + [exit];
  }

  lemma CloseDoneLeads(steps: seq<Step>, w: World, status: Status, t: Task, fd: s32)
    requires fd >= 0 && PhaseOf(w, t.tid).Idle? && FdKey(t.pid, fd) in w.kernel.open
    requires Leads(steps, FdKey(t.pid, fd), w, status)
    ensures var e := Effect(FdKey(t.pid, fd), GiveUp);
      Leads(steps + CloseDone(t, fd), e.key,
            World(KernelStep(w.kernel, Some(e)), w.phases[t.tid := Effected(t, Close(fd), true, 0)],
                  w.flight + [Flight(t.tid, e)]),
            status)
  {
    var key := FdKey(t.pid, fd);
    var w1, w2 := CloseSteps(w, t, fd);
    var begin, enter, happen := Begin(t, Close(fd)), See(EnterClose(t, fd, 0)), Happen(t.tid, 0);
    PlayUnseen(steps, key, w, status, begin, w1);
    PlayUnseen(steps + [begin], key, w1, status, enter, w2);
    PlayUnseen(steps + [begin] + [enter], key, w2, status, happen, Advance(w2, happen));
    assert steps + CloseDone(t, fd) == steps + [begin] + [enter] + [happen];
  }

  /** The exit of the only call in flight, a close. */
  lemma CloseSeenLeads(steps: seq<Step>, w: World, status: Status, t: Task, fd: s32, env: FdEnv)
    requires Leads(steps, FdKey(t.pid, fd), w, status) && fd >= 0
    requires PhaseOf(w, t.tid) == Effected(t, Close(fd), true, 0)
    requires w.flight == [Flight(t.tid, Effect(FdKey(t.pid, fd), GiveUp))]
    ensures Leads(steps + [See(ExitClose(t, 0, env))], FdKey(t.pid, fd),
                  World(w.kernel, w.phases[t.tid := Returned(t, Close(fd), 0, false)], []), Changed(status, GiveUp))
  {
    var exit := See(ExitClose(t, 0, env));
    assert w.flight[..|w.flight| - 1] == [] && Without(w.flight, t.tid) == [];
    assert NextPhase(PhaseOf(w, t.tid), exit.probe) == Returned(t, Close(fd), 0, false);
    assert Advance(w, exit) == World(w.kernel, w.phases[t.tid := Returned(t, Close(fd), 0, false)], []);
    PlaySeen(steps, FdKey(t.pid, fd), w, status, exit, Advance(w, exit), GiveUp);
  }

  /** A closes its descriptor; B opens it again and is seen before A's close is. */
  function OvertakenClose(a: Task, b: Task, fd: s32, env: FdEnv): seq<Step> {
    OpenSeen(a, fd, env) + [End(a)] + CloseDone(a, fd) + OpenSeen(b, fd, env) + [See(ExitClose(a, 0, env))]
  }

  /** B closes A's descriptor, and is seen to, before another exit probe of A's open fires. */
  function LateOpenExit(a: Task, b: Task, fd: s32, env: FdEnv): seq<Step> {
    OpenSeen(a, fd, env) + CloseDone(b, fd) + [See(ExitClose(b, 0, env))] + [See(ExitOpen(a, fd, env))]
  }

  lemma FirstOpenLeads(a: Task, fd: s32, env: FdEnv)
    requires fd >= 0
    ensures var key := FdKey(a.pid, fd);
      Leads(OpenSeen(a, fd, env), key, World(Kernel({key}, {key}, {}), map[a.tid := Returned(a, Open, fd, false)], []),
            Holding)
  {
    OpenSeenLeads([], FIRST_WORLD, Never, a, fd, env);
    assert [] + OpenSeen(a, fd, env) == OpenSeen(a, fd, env);
  }

  /** The world in which the thread's close of the only descriptor is in flight. */
  function Closing(phases: map<u32, Phase>, t: Task, fd: s32): World {
    var key := FdKey(t.pid, fd);
    World(Kernel({}, {}, {key}), phases[t.tid := Effected(t, Close(fd), true, 0)], [Flight(t.tid, Effect(key, GiveUp))])
  }

  lemma ReopenedCloseLeads(a: Task, fd: s32, env: FdEnv)
    requires fd >= 0
    ensures Leads(OpenSeen(a, fd, env) + [End(a)] + CloseDone(a, fd), FdKey(a.pid, fd),
                  Closing(map[a.tid := Idle], a, fd), Holding)
  {
    var key := FdKey(a.pid, fd);
    FirstOpenLeads(a, fd, env);
    var s0, w0 := OpenSeen(a, fd, env), World(Kernel({key}, {key}, {}), map[a.tid := Returned(a, Open, fd, false)], []);
    var w1 := w0.(phases := map[a.tid := Idle]);
    PlayUnseen(s0, key, w0, Holding, End(a), w1);
    CloseDoneLeads(s0 + [End(a)], w1, Holding, a, fd);
    assert KernelStep(w1.kernel, Some(Effect(key, GiveUp))) == Kernel({}, {}, {key});
  }

  /** The overtaken close takes the descriptor of B, still open, out of the open map. */
  lemma OvertakenCloseLosesDescriptor(a: Task, b: Task, fd: s32, env: FdEnv)
    requires a.pid == b.pid && a.tid != b.tid && fd >= 0
    ensures var run, key := OvertakenClose(a, b, fd, env), FdKey(a.pid, fd);
      && Follows(run) && WorldAfter(run).flight == []
      && key in WorldAfter(run).kernel.held && key !in TrackedAfter(run).open
  {
    var key, closing := FdKey(a.pid, fd), Closing(map[a.tid := Idle], a, fd);
    ReopenedCloseLeads(a, fd, env);
    var s := OpenSeen(a, fd, env) + [End(a)] + CloseDone(a, fd);
    OpenSeenLeads(s, closing, Holding, b, fd, env);
    CloseSeenLeads(s + OpenSeen(b, fd, env),
                   World(KernelStep(closing.kernel, Some(Effect(key, Obtain))),
                         closing.phases[b.tid := Returned(b, Open, fd, false)], closing.flight),
                   Holding, a, fd, env);
  }

  lemma SharedCloseLeads(a: Task, b: Task, fd: s32, env: FdEnv)
    requires a.pid == b.pid && a.tid != b.tid && fd >= 0
    ensures Leads(OpenSeen(a, fd, env) + CloseDone(b, fd), FdKey(a.pid, fd),
                  Closing(map[a.tid := Returned(a, Open, fd, false)], b, fd), Holding)
  {
    var key := FdKey(a.pid, fd);
    FirstOpenLeads(a, fd, env);
    var w0 := World(Kernel({key}, {key}, {}), map[a.tid := Returned(a, Open, fd, false)], []);
    CloseDoneLeads(OpenSeen(a, fd, env), w0, Holding, b, fd);
    assert KernelStep(w0.kernel, Some(Effect(key, GiveUp))) == Kernel({}, {}, {key});
  }

  /** The late exit brings the descriptor back after its close. */
  lemma LateOpenExitRevivesDescriptor(a: Task, b: Task, fd: s32, env: FdEnv)
    requires a.pid == b.pid && a.tid != b.tid && fd >= 0
    ensures var run, key := LateOpenExit(a, b, fd, env), FdKey(a.pid, fd);
      && Follows(run) && WorldAfter(run).flight == []
      && key !in WorldAfter(run).kernel.open && key in TrackedAfter(run).open
  {
    var key, closing := FdKey(a.pid, fd), Closing(map[a.tid := Returned(a, Open, fd, false)], b, fd);
    SharedCloseLeads(a, b, fd, env);
    var s := OpenSeen(a, fd, env) + CloseDone(b, fd);
    CloseSeenLeads(s, closing, Holding, b, fd, env);
    var w1 := World(closing.kernel, closing.phases[b.tid := Returned(b, Close(fd), 0, false)], []);
    var late := See(ExitOpen(a, fd, env));
    PlaySeen(s + [See(ExitClose(b, 0, env))], key, w1, Retired, late, Advance(w1, late), Obtain);
  }

  // ----- verdicts and exactly-once observation -----

  /** The first exit of a close meets the entry its thread left. */
  lemma CloseExit(steps: seq<Step>, p: FdProbe)
    requires Follows(steps) && !IsEntry(p) && Allowed(WorldAfter(steps), See(p))
    requires PhaseOf(WorldAfter(steps), p.task.tid).Effected? && PhaseOf(WorldAfter(steps), p.task.tid).sys.Close?
    ensures var f := TrackedAfter(steps);
      && p.task.tid in f.pendingClose
      && f.pendingClose[p.task.tid].fd == PhaseOf(WorldAfter(steps), p.task.tid).sys.fd
      && ApplyFd(f, p) == CloseReturn(f, p.task, p.ret, p.env)
  {
    RunCoherent(steps);
    assert ThreadAgrees(TrackedAfter(steps), p.task.tid, PhaseOf(WorldAfter(steps), p.task.tid));
  }

  /** The first exit of a call posts an event exactly for a failed close of a descriptor
      that is not in the open map: a double close if it was seen obtained and given up
      since, an invalid close if it was never seen obtained. */
  lemma CloseVerdict(steps: seq<Step>, p: FdProbe)
    requires Follows(steps) && !IsEntry(p) && Allowed(WorldAfter(steps), See(p))
    requires PhaseOf(WorldAfter(steps), p.task.tid).Effected? && p.env.ringOk && p.env.stateOk
    ensures var sys := PhaseOf(WorldAfter(steps), p.task.tid).sys;
      var ring, ring' := TrackedAfter(steps).chan.ring, ApplyFd(TrackedAfter(steps), p).chan.ring;
      var seen := if sys.Close? then Seen(steps, FdKey(p.task.pid, sys.fd)) else [];
      if sys.Close? && p.ret != 0 && (seen == [] || Last(seen).GiveUp?) then
        && |ring'| == |ring| + 1
        && ring'[|ring|].etype == FdClose && ring'[|ring|].fd == sys.fd
        && ring'[|ring|].errno == FdCode(if Obtain in seen then FdDoubleClose else FdInvalidClose)
      else ring' == ring
  {
    var f, sys := TrackedAfter(steps), PhaseOf(WorldAfter(steps), p.task.tid).sys;
    if sys.Close? {
      var key := FdKey(p.task.pid, sys.fd);
      CloseExit(steps, p);
      KeysFollow(steps, key);
      CloseReturnPosts(f, p.task, p.ret, p.env);
    } else {
      OtherExitPostsNothing(steps, p);
    }
  }

  lemma KeysFollow(steps: seq<Step>, key: FdKey)
    requires Follows(steps)
    ensures var f, seen := TrackedAfter(steps), Seen(steps, key);
      && (key in f.open <==> seen != [] && Last(seen).Obtain?)
      && (key !in f.open ==> (key in f.closed <==> Obtain in seen))
  {
    var f := TrackedAfter(steps);
    StatusFollows(steps, key);
    AfterIs(Never, Seen(steps, key));
    assert key in f.open <==> key in f.open.Keys;
    assert key in f.closed <==> key in f.closed.Keys;
  }

  lemma OtherExitPostsNothing(steps: seq<Step>, p: FdProbe)
    requires Follows(steps) && !IsEntry(p) && Allowed(WorldAfter(steps), See(p))
    requires PhaseOf(WorldAfter(steps), p.task.tid).Effected? && !PhaseOf(WorldAfter(steps), p.task.tid).sys.Close?
    ensures ApplyFd(TrackedAfter(steps), p).chan.ring == TrackedAfter(steps).chan.ring
  {
    RunCoherent(steps);
    assert ThreadAgrees(TrackedAfter(steps), p.task.tid, PhaseOf(WorldAfter(steps), p.task.tid));
  }

  lemma CloseReturnPosts(f: Fds, t: Task, ret: int, env: FdEnv)
    requires t.tid in f.pendingClose && env.ringOk && env.stateOk
    ensures var ring, ring' := f.chan.ring, CloseReturn(f, t, ret, env).chan.ring;
      var fd := f.pendingClose[t.tid].fd;
      if ret != 0 && FdKey(t.pid, fd) !in f.open then
        && |ring'| == |ring| + 1 && ring'[|ring|].etype == FdClose && ring'[|ring|].fd == fd
        && ring'[|ring|].errno == FdCode(if FdKey(t.pid, fd) in f.closed then FdDoubleClose else FdInvalidClose)
      else ring' == ring
  {
  }

  /** Where nothing is in flight on its descriptor in an orderly run, a failed close posts
      by the kernel's own account. */
  lemma CloseVerdictIsKernels(steps: seq<Step>, p: FdProbe)
    requires Follows(steps) && AlwaysOrderly(steps) && !IsEntry(p) && Allowed(WorldAfter(steps), See(p))
    requires PhaseOf(WorldAfter(steps), p.task.tid).Effected? && p.env.ringOk && p.env.stateOk
    requires var sys := PhaseOf(WorldAfter(steps), p.task.tid).sys;
      sys.Close? && p.ret != 0 && Flying(WorldAfter(steps).flight, FdKey(p.task.pid, sys.fd)) == []
    ensures var w := WorldAfter(steps);
      var key := FdKey(p.task.pid, PhaseOf(w, p.task.tid).sys.fd);
      var ring, ring' := TrackedAfter(steps).chan.ring, ApplyFd(TrackedAfter(steps), p).chan.ring;
      if key in w.kernel.held then ring' == ring
      else
        && |ring'| == |ring| + 1
        && ring'[|ring|].errno == FdCode(if key in w.kernel.retired then FdDoubleClose else FdInvalidClose)
  {
    var key := FdKey(p.task.pid, PhaseOf(WorldAfter(steps), p.task.tid).sys.fd);
    CloseVerdict(steps, p);
    QuietDescriptorAgrees(steps, key);
    StatusFollows(steps, key);
    AfterIs(Never, Seen(steps, key));
    AfterIs(Never, Done(steps, key));
  }

  /** In every run, exits after the first post nothing. After a dup or close they change
      nothing at all; after an open they change the keys exactly when they record again and
      the descriptor has left the open map since. */
  lemma LateExitCountsOnce(steps: seq<Step>, p: FdProbe)
    requires Follows(steps) && !IsEntry(p) && Allowed(WorldAfter(steps), See(p))
    requires PhaseOf(WorldAfter(steps), p.task.tid).Returned?
    ensures var f, f' := TrackedAfter(steps), ApplyFd(TrackedAfter(steps), p);
      var ph := PhaseOf(WorldAfter(steps), p.task.tid);
      && f'.chan.ring == f.chan.ring
      && (!ph.sys.Open? ==> f' == f)
      && (f'.open.Keys == f.open.Keys && f'.closed.Keys == f.closed.Keys <==>
            (Rerecords(ph, p) && GoodFd(ph.ret) ==> FdKey(p.task.pid, ph.ret) in f.open))
  {
    RunCoherent(steps);
    var f, ph := TrackedAfter(steps), PhaseOf(WorldAfter(steps), p.task.tid);
    assert ThreadAgrees(f, p.task.tid, ph);
    LateExitRecords(f, p, ph);
    if Rerecords(ph, p) && GoodFd(ph.ret) {
      var key := FdKey(p.task.pid, ph.ret);
      assert key in f.open <==> key in f.open.Keys;
      assert key in ApplyFd(f, p).open.Keys && key !in ApplyFd(f, p).closed.Keys;
    }
  }

  /** A recorded dup owns its descriptor at the dup's own call site, keeps the origin of a
      tracked source, and leaves every other record alone. */
  lemma DupKeepsOrigin(f: Fds, t: Task, ret: int, env: FdEnv)
    requires t.tid in f.pendingDup && GoodFd(ret)
    requires var p := f.pendingDup[t.tid]; p.oldFd >= 0 && !(p.requested == p.oldFd && ret == p.oldFd)
    ensures var p := f.pendingDup[t.tid];
      var oldKey, newKey := FdKey(t.pid, p.oldFd), FdKey(t.pid, ret);
      var f' := ApplyFd(f, ExitDup(t, ret, env));
      && newKey in f'.open && newKey !in f'.closed
      && f'.open[newKey].openStack == p.stack && f'.open[newKey].closeStack == -1
      && (oldKey in f.open && f.open[oldKey].originStack >= 0 ==>
            f'.open[newKey].originStack == f.open[oldKey].originStack)
      && (oldKey !in f.open ==> f'.open[newKey].originStack == p.stack)
      && f'.open - {newKey} == f.open - {newKey}
  {
    assert (f.open[FdKey(t.pid, ret) := DupInfo(f, FdKey(t.pid, f.pendingDup[t.tid].oldFd), f.pendingDup[t.tid].stack)])
      - {FdKey(t.pid, ret)} == f.open - {FdKey(t.pid, ret)};
  }

  // ----- tracker objects -----

  /** The moves of a run that the tracker takes part in. */
  function MovesOf(steps: seq<Step>): seq<Move> {
    if steps == [] then [] else MovesOf(steps[..|steps| - 1]) + MoveOf(steps[|steps| - 1])
  }

  lemma {:induction false} TrackedIsRun(steps: seq<Step>)
    ensures TrackedAfter(steps) == RunMoves(MovesOf(steps))
  {
    if steps != [] {
      var before, s := steps[..|steps| - 1], steps[|steps| - 1];
      TrackedIsRun(before);
      if MoveOf(s) == [] {
        assert MovesOf(steps) == MovesOf(before);
      } else {
        assert MovesOf(steps) == MovesOf(before) + [MoveOf(s)[0]];
        RunMovesAppend(MovesOf(before), MoveOf(s)[0]);
      }
    }
  }

  /** A valid tracker object whose trace is that of a run of calls, on a channel it may share,
      obeys every theorem about such runs. */
  lemma FdTrackerObeysRunTheorems(tracker: FdTracker.Tracker, steps: seq<Step>, key: FdKey)
    requires tracker.Valid() && Follows(steps) && MovesOf(steps) == tracker.Trace()
    ensures tracker.View() == TrackedAfter(steps) && tracker.open.Keys !! tracker.closed.Keys
    ensures key in tracker.open <==> Seen(steps, key) != [] && Last(Seen(steps, key)).Obtain?
    ensures AlwaysOrderly(steps) && Flying(WorldAfter(steps).flight, key) == [] ==>
      var k := WorldAfter(steps).kernel;
      (key in tracker.open <==> key in k.held) && (key in tracker.closed <==> key in k.retired)
    ensures Numbered(tracker.View().chan, key.pid)
  {
    TrackedIsRun(steps);
    tracker.ValidMeansDisjoint();
    tracker.chan.Accounts(key.pid);
    AgreesIffLastSeenIsLastDone(steps, key);
    if AlwaysOrderly(steps) && Flying(WorldAfter(steps).flight, key) == [] {
      QuietDescriptorAgrees(steps, key);
    }
  }
}
