/** The event channel shared by the three BPF programs: one ring of submitted
    events and, per process, a sequence number, a drop counter and the armed flag. */
module Sentinel {
  import opened Words

  datatype Task = Task(pid: u32, tid: u32)

  datatype EventType =
    | Blank | Malloc | Free | Memcpy | Memmove | Memset | Strcpy | Strncpy | FdClose | Unrelated

  datatype Event = Event(
    etype: EventType, pid: u32, tid: u32, seqNo: u64, dropCount: u32,
    siteId: u32, stackId: int, len: u32, allocSize: u32, allocOffset: u32, allocBase: u64,
    addr: u64, fd: int, bytesRet: int, errno: int)

  /** What a reserved event holds before its type-specific fields are filled in. */
  function BlankEvent(t: Task): Event {
    Event(Blank, t.pid, t.tid, 0, 0, 0, -1, 0, 0, 0, 0, 0, -1, 0, 0)
  }

  datatype PidState = PidState(seqNo: u64, drops: u32, armed: bool)

  const ZERO_STATE: PidState := PidState(0, 0, false)

  datatype Channel = Channel(states: map<u32, PidState>, ring: seq<Event>)

  const EMPTY_CHANNEL: Channel := Channel(map[], [])

  predicate Armed(ch: Channel, pid: u32) {
    pid in ch.states && ch.states[pid].armed
  }

  /** Site ids are stack ids shifted by one, so that zero means unknown. */
  function SiteOf(stack: int): u32 {
    if stack >= 0 then Wrap32(stack + 1) else 0
  }

  /** What the programs do to the channel. `stateOk` and `ringOk` are the kernel's
      answers: room for a new per-process state, room in the ring. */
  datatype Op =
    | Create(pid: u32, stateOk: bool)
    | Arm(pid: u32)
    | Post(task: Task, ringOk: bool, body: Event)

  function ApplyOp(ch: Channel, op: Op): Channel {
    match op
    case Create(pid, stateOk) =>
      if pid in ch.states || !stateOk then ch else ch.(states := ch.states[pid := ZERO_STATE])
    case Arm(pid) =>
      if pid in ch.states then ch.(states := ch.states[pid := ch.states[pid].(armed := true)]) else ch
    case Post(task, ringOk, body) =>
      if task.pid !in ch.states then ch
      else
        var st := ch.states[task.pid];
        if !ringOk then ch.(states := ch.states[task.pid := st.(drops := Wrap32(st.drops + 1))])
        else
          var st' := st.(seqNo := Wrap64(st.seqNo + 1), drops := 0);
          var evt := body.(pid := task.pid, tid := task.tid, seqNo := st'.seqNo, dropCount := st.drops);
          Channel(ch.states[task.pid := st'], ch.ring + [evt])
  }

  function ApplyOps(ch: Channel, ops: seq<Op>): Channel {
    if ops == [] then ch else ApplyOp(ApplyOps(ch, ops[..|ops| - 1]), ops[|ops| - 1])
  }

  lemma ApplyOpsAppend(ch: Channel, a: seq<Op>, op: Op)
    ensures ApplyOps(ch, a + [op]) == ApplyOp(ApplyOps(ch, a), op)
  {
    assert (a + [op])[..|a|] == a;
  }

  lemma {:induction false} ApplyOpsConcat(ch: Channel, a: seq<Op>, b: seq<Op>)
    ensures ApplyOps(ch, a + b) == ApplyOps(ApplyOps(ch, a), b)
    decreases |b|
  {
    if b == [] {
      assert a + b == a;
    } else {
      ApplyOpsConcat(ch, a, b[..|b| - 1]);
      assert (a + b)[..|a + b| - 1] == a + b[..|b| - 1];
    }
  }

  /** A longer log, from some position on, and what it leads to. */
  lemma LogGoesOn(log: seq<Op>, log': seq<Op>, seen: nat)
    requires seen <= |log| && log <= log'
    ensures log'[seen..] == log[seen..] + log'[|log|..]
    ensures ApplyOps(EMPTY_CHANNEL, log') == ApplyOps(ApplyOps(EMPTY_CHANNEL, log), log'[|log|..])
  {
    ApplyOpsConcat(EMPTY_CHANNEL, log, log'[|log|..]);
    assert log' == log + log'[|log|..];
  }

  /** The submitted form of a filled event: same contents, stamped with thread and counters. */
  predicate Submitted(e: Event, t: Task, body: Event) {
    e == body.(pid := t.pid, tid := t.tid, seqNo := e.seqNo, dropCount := e.dropCount)
  }

  lemma PostAppends(ch: Channel, t: Task, ringOk: bool, body: Event)
    requires t.pid in ch.states
    ensures var ring := ApplyOp(ch, Post(t, ringOk, body)).ring;
      if ringOk then
        |ring| == |ch.ring| + 1 && ring[..|ch.ring|] == ch.ring && Submitted(ring[|ch.ring|], t, body)
      else ring == ch.ring
  {
  }

  class SentinelChannel {
    var states: map<u32, PidState>
    var ring: seq<Event>
    ghost var log: seq<Op>

    ghost function View(): Channel
      reads this
    {
      Channel(states, ring)
    }

    ghost predicate Valid()
      reads this
    {
      View() == ApplyOps(EMPTY_CHANNEL, log)
    }

    constructor ()
      ensures Valid() && View() == EMPTY_CHANNEL && log == []
    {
      states, ring, log := map[], [], [];
    }

    method GetState(pid: u32, stateOk: bool) returns (ok: bool)
      requires Valid()
      modifies this
      ensures Valid() && View() == ApplyOp(old(View()), Create(pid, stateOk))
      ensures log == old(log) + [Create(pid, stateOk)]
      ensures ok <==> pid in states
      ensures ok <==> pid in old(states) || stateOk
    {
      ApplyOpsAppend(EMPTY_CHANNEL, log, Create(pid, stateOk));
      if pid !in states && stateOk {
        states := states[pid := ZERO_STATE];
      }
      log := log + [Create(pid, stateOk)];
      ok := pid in states;
    }

    method SetArmed(pid: u32)
      requires Valid() && pid in states
      modifies this
      ensures Valid() && View() == ApplyOp(old(View()), Arm(pid))
      ensures log == old(log) + [Arm(pid)]
    {
      ApplyOpsAppend(EMPTY_CHANNEL, log, Arm(pid));
      states := states[pid := states[pid].(armed := true)];
      log := log + [Arm(pid)];
    }

    /** Reservation followed by submission of the filled event. */
    method Emit(t: Task, ringOk: bool, body: Event) returns (reserved: bool)
      requires Valid()
      modifies this
      ensures Valid() && View() == ApplyOp(old(View()), Post(t, ringOk, body))
      ensures log == old(log) + [Post(t, ringOk, body)]
      ensures reserved <==> t.pid in old(states) && ringOk
    {
      ApplyOpsAppend(EMPTY_CHANNEL, log, Post(t, ringOk, body));
      log := log + [Post(t, ringOk, body)];
      if t.pid !in states {
        return false;
      }
      var st := states[t.pid];
      if !ringOk {
        states := states[t.pid := st.(drops := Wrap32(st.drops + 1))];
        return false;
      }
      var evt := body.(pid := t.pid, tid := t.tid);
      var number := Wrap64(st.seqNo + 1);
      evt := evt.(seqNo := number, dropCount := st.drops);
      states := states[t.pid := st.(seqNo := number, drops := 0)];
      ring := ring + [evt];
      return true;
    }

    /** What every channel the programs can have brought about satisfies. */
    lemma Accounts(pid: u32)
      requires Valid()
      ensures Numbered(View(), pid)
      ensures ShortStreaks(log, pid) <==>
        DropSum(EventsOf(ring, pid)) + DropsOf(View(), pid) == Failures(log, pid)
    {
      EventsAreNumbered(log, pid);
      DropAccountingExact(log, pid);
    }
  }

  // ----- event accounting over whole runs -----

  function EventsOf(ring: seq<Event>, pid: u32): seq<Event> {
    if ring == [] then []
    else
      var rest := EventsOf(ring[..|ring| - 1], pid);
      if ring[|ring| - 1].pid == pid then rest + [ring[|ring| - 1]] else rest
  }

  function DropSum(events: seq<Event>): nat {
    if events == [] then 0
    else DropSum(events[..|events| - 1]) + events[|events| - 1].dropCount
  }

  /** The last operation of a run is a failed reservation for the process. */
  predicate EndsInFailure(ops: seq<Op>, pid: u32) {
    && ops != []
    && var op := ops[|ops| - 1];
       op.Post? && op.task.pid == pid && !op.ringOk && pid in ApplyOps(EMPTY_CHANNEL, ops[..|ops| - 1]).states
  }

  predicate EndsInSubmission(ops: seq<Op>, pid: u32) {
    && ops != []
    && var op := ops[|ops| - 1];
       op.Post? && op.task.pid == pid && op.ringOk && pid in ApplyOps(EMPTY_CHANNEL, ops[..|ops| - 1]).states
  }

  /** Failed reservations of a process in a run. */
  function Failures(ops: seq<Op>, pid: u32): nat {
    if ops == [] then 0
    else Failures(ops[..|ops| - 1], pid) + if EndsInFailure(ops, pid) then 1 else 0
  }

  /** Failed reservations since the last submission. */
  function Streak(ops: seq<Op>, pid: u32): nat {
    if ops == [] then 0
    else if EndsInSubmission(ops, pid) then 0
    else Streak(ops[..|ops| - 1], pid) + if EndsInFailure(ops, pid) then 1 else 0
  }

  /** Streaks that reached a multiple of 2^32, where the 32-bit counter wraps. */
  function Wraps(ops: seq<Op>, pid: u32): nat {
    if ops == [] then 0
    else Wraps(ops[..|ops| - 1], pid)
         + if EndsInFailure(ops, pid) && Streak(ops, pid) % TWO32 == 0 then 1 else 0
  }

  /** After the run and each of its prefixes, fewer than 2^32 reservations failed in a row. */
  predicate ShortStreaks(ops: seq<Op>, pid: u32) {
    Streak(ops, pid) < TWO32 && (ops != [] ==> ShortStreaks(ops[..|ops| - 1], pid))
  }

  function DropsOf(ch: Channel, pid: u32): u32 {
    if pid in ch.states then ch.states[pid].drops else 0
  }

  /** The k-th submitted event of a process carries sequence number k. */
  ghost predicate Numbered(ch: Channel, pid: u32) {
    var events := EventsOf(ch.ring, pid);
    && (pid in ch.states ==> ch.states[pid].seqNo == |events| % TWO64)
    && (pid !in ch.states ==> events == [])
    && Sequenced(events)
  }

  ghost predicate Sequenced(events: seq<Event>) {
    forall k :: 0 <= k < |events| ==> events[k].seqNo == (k + 1) % TWO64
  }

  lemma SequencedAppend(events: seq<Event>, e: Event)
    requires Sequenced(events) && e.seqNo == (|events| + 1) % TWO64
    ensures Sequenced(events + [e])
  {
  }

  /** What one operation adds to the events and counters of a process. */
  lemma StepEffect(ch: Channel, op: Op, pid: u32)
    ensures var ch' := ApplyOp(ch, op);
      var hit := op.Post? && op.task.pid == pid && pid in ch.states;
      if hit && op.ringOk then
        && EventsOf(ch'.ring, pid) == EventsOf(ch.ring, pid) + [ch'.ring[|ch.ring|]]
        && ch'.ring[|ch.ring|].dropCount == DropsOf(ch, pid)
        && DropSum(EventsOf(ch'.ring, pid)) == DropSum(EventsOf(ch.ring, pid)) + DropsOf(ch, pid)
        && DropsOf(ch', pid) == 0
      else
        && EventsOf(ch'.ring, pid) == EventsOf(ch.ring, pid)
        && DropsOf(ch', pid) == if hit then (DropsOf(ch, pid) + 1) % TWO32 else DropsOf(ch, pid)
  {
    var ch' := ApplyOp(ch, op);
    if |ch'.ring| > |ch.ring| {
      assert ch'.ring[..|ch.ring|] == ch.ring;
      var events, events' := EventsOf(ch.ring, pid), EventsOf(ch'.ring, pid);
      if op.task.pid == pid {
        assert events'[..|events|] == events;
      }
    }
  }

  lemma {:induction false} EventsAreNumbered(ops: seq<Op>, pid: u32)
    ensures Numbered(ApplyOps(EMPTY_CHANNEL, ops), pid)
  {
    if ops != [] {
      var before := ops[..|ops| - 1];
      EventsAreNumbered(before, pid);
      NumberedStep(ApplyOps(EMPTY_CHANNEL, before), ops[|ops| - 1], pid);
    }
  }

  lemma NumberedStep(ch: Channel, op: Op, pid: u32)
    requires Numbered(ch, pid)
    ensures Numbered(ApplyOp(ch, op), pid)
  {
    var ch' := ApplyOp(ch, op);
    StepEffect(ch, op, pid);
    if op.Post? && op.task.pid == pid && pid in ch.states && op.ringOk {
      var events, e := EventsOf(ch.ring, pid), ch'.ring[|ch.ring|];
      assert e.seqNo == Wrap64(ch.states[pid].seqNo + 1);
      NextNumber(|events|, ch.states[pid].seqNo);
      SequencedAppend(events, e);
    } else {
      assert EventsOf(ch'.ring, pid) == EventsOf(ch.ring, pid);
    }
  }

  lemma NextNumber(n: nat, seqNo: u64)
    requires seqNo == n % TWO64
    ensures Wrap64(seqNo + 1) == (n + 1) % TWO64
  {
  }

  /** One more failure moves the counter, or turns it over. */
  lemma CounterTurns(failures: nat, sum: nat, drops: u32, wraps: nat, streak: nat)
    requires failures == sum + drops + TWO32 * wraps && drops == streak % TWO32
    ensures (drops + 1) % TWO32 == (streak + 1) % TWO32
    ensures failures + 1 == sum + (drops + 1) % TWO32 + TWO32 * (wraps + if (streak + 1) % TWO32 == 0 then 1 else 0)
  {
    assert streak + 1 == TWO32 * (streak / TWO32) + (drops + 1);
    if drops + 1 == TWO32 {
      assert streak + 1 == TWO32 * (streak / TWO32 + 1);
    }
  }

  /** Failures, submitted drop counts, counter, turns of the counter, and length of the streak. */
  datatype Tally = Tally(failures: nat, sum: nat, drops: u32, wraps: nat, streak: nat)

  function TallyOf(ops: seq<Op>, pid: u32): Tally {
    var ch := ApplyOps(EMPTY_CHANNEL, ops);
    Tally(Failures(ops, pid), DropSum(EventsOf(ch.ring, pid)), DropsOf(ch, pid), Wraps(ops, pid), Streak(ops, pid))
  }

  predicate Balances(t: Tally) {
    t.failures == t.sum + t.drops + TWO32 * t.wraps && t.drops == t.streak % TWO32
  }

  /** A submission moves the counter into the sum, a failure counts one more, and any other
      operation leaves the tally alone. */
  lemma TallyStep(ops: seq<Op>, pid: u32)
    requires ops != []
    ensures var t, t' := TallyOf(ops[..|ops| - 1], pid), TallyOf(ops, pid);
      if EndsInSubmission(ops, pid) then t' == t.(sum := t.sum + t.drops, drops := 0, streak := 0)
      else if EndsInFailure(ops, pid) then
        t' == Tally(t.failures + 1, t.sum, (t.drops + 1) % TWO32,
                    t.wraps + (if (t.streak + 1) % TWO32 == 0 then 1 else 0), t.streak + 1)
      else t' == t
  {
    StepEffect(ApplyOps(EMPTY_CHANNEL, ops[..|ops| - 1]), ops[|ops| - 1], pid);
  }

  lemma BalanceKept(t: Tally)
    requires Balances(t)
    ensures Balances(t.(sum := t.sum + t.drops, drops := 0, streak := 0))
    ensures Balances(Tally(t.failures + 1, t.sum, (t.drops + 1) % TWO32,
                           t.wraps + (if (t.streak + 1) % TWO32 == 0 then 1 else 0), t.streak + 1))
  {
    CounterTurns(t.failures, t.sum, t.drops, t.wraps, t.streak);
  }

  /** Nothing is lost from the drop counts except full turns of the 32-bit counter. */
  lemma {:induction false} DropsBalance(ops: seq<Op>, pid: u32)
    ensures Balances(TallyOf(ops, pid))
  {
    if ops != [] {
      var t := TallyOf(ops[..|ops| - 1], pid);
      DropsBalance(ops[..|ops| - 1], pid);
      TallyStep(ops, pid);
      BalanceKept(t);
    }
  }

  lemma {:induction false} NoWrapIffShortStreaks(ops: seq<Op>, pid: u32)
    ensures Wraps(ops, pid) == 0 <==> ShortStreaks(ops, pid)
  {
    if ops != [] {
      NoWrapIffShortStreaks(ops[..|ops| - 1], pid);
    }
  }

  /** Submitted drop counts plus the current counter account for every failed
      reservation, exactly when no 2^32 reservations fail in a row. */
  lemma DropAccountingExact(ops: seq<Op>, pid: u32)
    ensures var ch := ApplyOps(EMPTY_CHANNEL, ops);
      DropSum(EventsOf(ch.ring, pid)) + DropsOf(ch, pid) == Failures(ops, pid) <==> ShortStreaks(ops, pid)
  {
    DropsBalance(ops, pid);
    NoWrapIffShortStreaks(ops, pid);
  }
}
