/** Which attempts of a repeated run are handed to the expensive tools. */
module Escalation {
  import opened Words

  datatype TargetStatus = Clean | Findings | Failed | Timeout | Skipped | ToolUnavailable | NotApplicable

  datatype Target = Target(status: TargetStatus, findingsCount: nat, error: Option<string>)

  datatype Policy = Never | FirstFailure | Sampled | Always

  datatype Reason = PolicyAlways | FirstEscalatableFailure | SampledFirstAttempt | SampledFirstFailure

  const KNOWN_SETUP_FAILURES: seq<string> := [
    "Native mode is only supported on Linux",
    "Native mode requires CAP_BPF",
    "without a shared host PID namespace",
    "Could not find re-mini agent",
    "Could not find heap_tracker.bpf.o",
    "Could not find copy_checker.bpf.o",
    "Could not detect libc path",
    "Failed to start agent",
    "Agent exited prematurely",
    "Failed to resume target",
    "Target exited before post-exec stop"]

  predicate Contains(text: string, needle: string) {
    exists i :: 0 <= i <= |text| && StartsAt(text, needle, i)
  }

  predicate StartsAt(text: string, needle: string, i: nat) {
    i + |needle| <= |text| && text[i..i + |needle|] == needle
  }

  predicate AllowsToolOnlyFallback(error: string) {
    exists k :: 0 <= k < |KNOWN_SETUP_FAILURES| && Contains(error, KNOWN_SETUP_FAILURES[k])
  }

  predicate FailureLike(t: Target) {
    t.findingsCount > 0 || t.status.Findings? || t.status.Failed? || t.status.Skipped?
  }

  predicate CanEscalate(t: Target, deep: bool) {
    if t.findingsCount > 0 then true
    else if t.status.Failed? then t.error.Some? && AllowsToolOnlyFallback(t.error.value)
    else deep && !(t.status.Failed? || t.status.Timeout? || t.status.Skipped?)
  }

  predicate SelectsTarget(reason: Reason, t: Target, deep: bool) {
    && CanEscalate(t, deep)
    && match reason
       case FirstEscalatableFailure => FailureLike(t)
       case SampledFirstFailure => FailureLike(t)
       case SampledFirstAttempt => true
       case PolicyAlways => true
  }

  predicate HasCandidate(targets: seq<Target>, deep: bool) {
    exists i :: 0 <= i < |targets| && CanEscalate(targets[i], deep)
  }

  predicate HasFailure(targets: seq<Target>, deep: bool) {
    exists i :: 0 <= i < |targets| && CanEscalate(targets[i], deep) && FailureLike(targets[i])
  }

  datatype Flags = Flags(firstFailure: bool, sampledAttempt: bool, sampledFailure: bool)

  const NO_FLAGS: Flags := Flags(false, false, false)

  function Select(f: Flags, policy: Policy, attempt: nat, targets: seq<Target>, deep: bool): (Flags, Option<Reason>) {
    var candidate, failure := HasCandidate(targets, deep), HasFailure(targets, deep);
    match policy
    case Never => (f, None)
    case Always => (f, if candidate then Some(PolicyAlways) else None)
    case FirstFailure =>
      if failure && !f.firstFailure then (f.(firstFailure := true), Some(FirstEscalatableFailure)) else (f, None)
    case Sampled =>
      if deep && attempt == 1 && candidate && !f.sampledAttempt then
        (f.(sampledAttempt := true, sampledFailure := f.sampledFailure || failure), Some(SampledFirstAttempt))
      else if failure && !f.sampledFailure then (f.(sampledFailure := true), Some(SampledFirstFailure))
      else (f, None)
  }

  class RepeatEscalationState {
    var firstFailureSelected: bool
    var sampledFirstAttemptSelected: bool
    var sampledFailureSelected: bool

    ghost function View(): Flags
      reads this
    {
      Flags(firstFailureSelected, sampledFirstAttemptSelected, sampledFailureSelected)
    }

    constructor ()
      ensures View() == NO_FLAGS
    {
      firstFailureSelected, sampledFirstAttemptSelected, sampledFailureSelected := false, false, false;
    }

    method SelectAttempt(policy: Policy, attempt: nat, targets: seq<Target>, deep: bool)
      returns (reason: Option<Reason>)
      modifies this
      ensures (View(), reason) == Select(old(View()), policy, attempt, targets, deep)
    {
      var candidate, failure := false, false;
      for i := 0 to |targets|
        invariant candidate <==> exists k :: 0 <= k < i && CanEscalate(targets[k], deep)
        invariant failure <==> exists k :: 0 <= k < i && CanEscalate(targets[k], deep) && FailureLike(targets[k])
      {
        if CanEscalate(targets[i], deep) {
          candidate := true;
          if FailureLike(targets[i]) {
            failure := true;
          }
        }
      }
      match policy
      case Never => return None;
      case Always => return if candidate then Some(PolicyAlways) else None;
      case FirstFailure =>
        if failure && !firstFailureSelected {
          firstFailureSelected := true;
          return Some(FirstEscalatableFailure);
        }
        return None;
      case Sampled =>
        if deep && attempt == 1 && candidate && !sampledFirstAttemptSelected {
          sampledFirstAttemptSelected := true;
          if failure {
            sampledFailureSelected := true;
          }
          return Some(SampledFirstAttempt);
        }
        if failure && !sampledFailureSelected {
          sampledFailureSelected := true;
          return Some(SampledFirstFailure);
        }
        return None;
    }
  }

  // ----- whole repeated runs; attempt numbers start at one -----

  function FlagsAfter(policy: Policy, attempts: seq<seq<Target>>, deep: bool): Flags {
    if attempts == [] then NO_FLAGS
    else
      var before := FlagsAfter(policy, attempts[..|attempts| - 1], deep);
      Select(before, policy, |attempts|, attempts[|attempts| - 1], deep).0
  }

  function Selection(policy: Policy, attempts: seq<seq<Target>>, deep: bool, i: nat): Option<Reason>
    requires i < |attempts|
  {
    Select(FlagsAfter(policy, attempts[..i], deep), policy, i + 1, attempts[i], deep).1
  }

  method SelectAll(policy: Policy, attempts: seq<seq<Target>>, deep: bool) returns (reasons: seq<Option<Reason>>)
    ensures |reasons| == |attempts|
    ensures forall i :: 0 <= i < |attempts| ==> reasons[i] == Selection(policy, attempts, deep, i)
  {
    reasons := [];
    var state := new RepeatEscalationState();
    for i := 0 to |attempts|
      invariant |reasons| == i && state.View() == FlagsAfter(policy, attempts[..i], deep)
      invariant forall j :: 0 <= j < i ==> reasons[j] == Selection(policy, attempts, deep, j)
    {
      var reason := state.SelectAttempt(policy, i + 1, attempts[i], deep);
      reasons := reasons + [reason];
      assert attempts[..i + 1][..i] == attempts[..i];
    }
  }

  ghost predicate FailureBefore(attempts: seq<seq<Target>>, deep: bool, i: nat)
    requires i <= |attempts|
  {
    exists j :: 0 <= j < i && HasFailure(attempts[j], deep)
  }

  /** What the flags remember of the attempts so far. */
  lemma {:induction false} FlagsRemember(policy: Policy, attempts: seq<seq<Target>>, deep: bool)
    ensures var f := FlagsAfter(policy, attempts, deep);
      && (policy.FirstFailure? ==> (f.firstFailure <==> FailureBefore(attempts, deep, |attempts|)))
      && (policy.Sampled? ==> (f.sampledFailure <==> FailureBefore(attempts, deep, |attempts|)))
      && (policy.Sampled? && attempts == [] ==> !f.sampledAttempt)
  {
    if attempts != [] {
      var before := attempts[..|attempts| - 1];
      FlagsRemember(policy, before, deep);
      assert FailureBefore(attempts, deep, |attempts|) <==>
        FailureBefore(before, deep, |before|) || HasFailure(attempts[|attempts| - 1], deep) by {
        assert forall j :: 0 <= j < |before| ==> before[j] == attempts[j];
      }
    }
  }

  /** The first attempt with an escalatable, failure-like target. */
  ghost predicate IsFirstFailure(attempts: seq<seq<Target>>, deep: bool, i: nat)
    requires i < |attempts|
  {
    HasFailure(attempts[i], deep) && !FailureBefore(attempts, deep, i)
  }

  /** Exactly which attempts each policy selects, over any run. */
  lemma SelectedIff(policy: Policy, attempts: seq<seq<Target>>, deep: bool, i: nat)
    requires i < |attempts|
    ensures Selection(policy, attempts, deep, i).Some? <==>
      match policy
      case Never => false
      case Always => HasCandidate(attempts[i], deep)
      case FirstFailure => IsFirstFailure(attempts, deep, i)
      case Sampled => (deep && i == 0 && HasCandidate(attempts[0], deep)) || IsFirstFailure(attempts, deep, i)
  {
    FlagsRemember(policy, attempts[..i], deep);
    assert FailureBefore(attempts[..i], deep, i) <==> FailureBefore(attempts, deep, i) by {
      assert forall j :: 0 <= j < i ==> attempts[..i][j] == attempts[j];
    }
  }

  /** The budget: first-failure selects at most one attempt, sampled at most two. */
  lemma SelectionBudget(policy: Policy, attempts: seq<seq<Target>>, deep: bool, i: nat, j: nat)
    requires i < j < |attempts|
    requires Selection(policy, attempts, deep, i).Some? && Selection(policy, attempts, deep, j).Some?
    ensures !policy.FirstFailure? && !policy.Never?
    ensures policy.Sampled? ==> forall k :: j < k < |attempts| ==> Selection(policy, attempts, deep, k).None?
  {
    SelectedIff(policy, attempts, deep, i);
    SelectedIff(policy, attempts, deep, j);
    forall k | policy.Sampled? && j < k < |attempts| ensures Selection(policy, attempts, deep, k).None? {
      SelectedIff(policy, attempts, deep, k);
    }
  }

  /** A selected attempt always has a target that its reason escalates. */
  lemma SelectionIsNeverIdle(policy: Policy, attempts: seq<seq<Target>>, deep: bool, i: nat)
    requires i < |attempts| && Selection(policy, attempts, deep, i).Some?
    ensures var reason := Selection(policy, attempts, deep, i).value;
      exists t :: 0 <= t < |attempts[i]| && SelectsTarget(reason, attempts[i][t], deep)
  {
    var reason := Selection(policy, attempts, deep, i).value;
    if reason.FirstEscalatableFailure? || reason.SampledFirstFailure? {
      var t :| 0 <= t < |attempts[i]| && CanEscalate(attempts[i][t], deep) && FailureLike(attempts[i][t]);
      assert SelectsTarget(reason, attempts[i][t], deep);
    } else {
      var t :| 0 <= t < |attempts[i]| && CanEscalate(attempts[i][t], deep);
      assert SelectsTarget(reason, attempts[i][t], deep);
    }
  }

  // ----- who can be escalated -----

  /** Findings always; without them a failed target only for a known setup failure, and any
      other only in deep runs and if it ran to its end. */
  lemma CanEscalateIff(t: Target, deep: bool)
    ensures CanEscalate(t, deep) <==>
      || t.findingsCount > 0
      || (t.status == Failed && t.error.Some? && AllowsToolOnlyFallback(t.error.value))
      || (deep && t.status in {Clean, Findings, ToolUnavailable, NotApplicable})
  {
  }

  /** An attempt counts as a failure by a target with findings, one that failed in a known
      setup step, or, in deep runs, one whose status says findings; never by a skipped one. */
  lemma HasFailureIff(targets: seq<Target>, deep: bool)
    ensures HasFailure(targets, deep) <==>
      exists i :: 0 <= i < |targets| &&
        (|| targets[i].findingsCount > 0
         || (targets[i].status == Failed && targets[i].error.Some? && AllowsToolOnlyFallback(targets[i].error.value))
         || (deep && targets[i].status == Findings))
  {
  }

  /** A known message is recognized anywhere inside an error. */
  lemma KnownFailureInside(before: string, after: string, k: nat)
    requires k < |KNOWN_SETUP_FAILURES|
    ensures AllowsToolOnlyFallback(before + KNOWN_SETUP_FAILURES[k] + after)
  {
    var text := before + KNOWN_SETUP_FAILURES[k] + after;
    assert text[|before|..|before| + |KNOWN_SETUP_FAILURES[k]|] == KNOWN_SETUP_FAILURES[k];
    assert StartsAt(text, KNOWN_SETUP_FAILURES[k], |before|);
  }

  /** No error shorter than every known message is one. */
  lemma ShortErrorIsNoSetupFailure(error: string)
    requires |error| < 20
    ensures !AllowsToolOnlyFallback(error)
  {
    forall k | 0 <= k < |KNOWN_SETUP_FAILURES| ensures |KNOWN_SETUP_FAILURES[k]| >= 20 {
    }
  }

  /** The reason given: the policy's own, and under sampling the first attempt of a deep run is
      sampled as such even where it fails. */
  lemma ReasonIs(policy: Policy, attempts: seq<seq<Target>>, deep: bool, i: nat)
    requires i < |attempts| && Selection(policy, attempts, deep, i).Some?
    ensures Selection(policy, attempts, deep, i).value ==
      match policy
      case Never => PolicyAlways
      case Always => PolicyAlways
      case FirstFailure => FirstEscalatableFailure
      case Sampled => if deep && i == 0 then SampledFirstAttempt else SampledFirstFailure
  {
    FlagsRemember(policy, attempts[..i], deep);
    if i == 0 && HasFailure(attempts[0], deep) {
      assert HasCandidate(attempts[0], deep);
    }
  }

  /** The messages a failed set-up is known by. */
  lemma SetupFailuresAre(error: string)
    ensures AllowsToolOnlyFallback(error) <==>
      || Contains(error, "Native mode is only supported on Linux")
      || Contains(error, "Native mode requires CAP_BPF")
      || Contains(error, "without a shared host PID namespace")
      || Contains(error, "Could not find re-mini agent")
      || Contains(error, "Could not find heap_tracker.bpf.o")
      || Contains(error, "Could not find copy_checker.bpf.o")
      || Contains(error, "Could not detect libc path")
      || Contains(error, "Failed to start agent")
      || Contains(error, "Agent exited prematurely")
      || Contains(error, "Failed to resume target")
      || Contains(error, "Target exited before post-exec stop")
  {
    var known := KNOWN_SETUP_FAILURES;
    assert known[0] == "Native mode is only supported on Linux" && known[1] == "Native mode requires CAP_BPF";
    assert known[2] == "without a shared host PID namespace" && known[3] == "Could not find re-mini agent";
    assert known[4] == "Could not find heap_tracker.bpf.o" && known[5] == "Could not find copy_checker.bpf.o";
    assert known[6] == "Could not detect libc path" && known[7] == "Failed to start agent";
    assert known[8] == "Agent exited prematurely" && known[9] == "Failed to resume target";
    assert known[10] == "Target exited before post-exec stop" && |known| == 11;
  }
}
