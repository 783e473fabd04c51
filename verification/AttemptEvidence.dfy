/** The attempts that observing a target makes, and what they leave of the evidence of a
    repeated run: native run, failed run, escalation and tool-only fallback. */
module AttemptEvidence {
  import opened Words
  import opened IssueGroups
  import opened Escalation
  import opened Promotion
  import opened PromotionLaws
  import opened RepeatSummary

  /** A target as it is being observed; its finding count is the length of its list. */
  datatype Observed = Observed(status: TargetStatus, findings: seq<Value>)

  datatype ToolRun = ToolRun(result: Promotion.Result, status: TargetStatus)

  function ResultsOf(runs: seq<ToolRun>): seq<Promotion.Result> {
    seq(|runs|, i requires 0 <= i < |runs| => runs[i].result)
  }

  function NativeRun(timedOut: bool, findings: seq<Value>): Observed {
    Observed(if timedOut then Timeout else if findings != [] then Findings else Clean, findings)
  }

  const FAILED_RUN: Observed := Observed(Failed, [])

  predicate Signals(run: ToolRun) {
    run.result.confirmed || run.result.detected != []
  }

  predicate AnySignal(runs: seq<ToolRun>) {
    exists i :: 0 <= i < |runs| && Signals(runs[i])
  }

  predicate AnyStatus(runs: seq<ToolRun>, s: TargetStatus) {
    exists i :: 0 <= i < |runs| && runs[i].status == s
  }

  predicate AllStatus(runs: seq<ToolRun>, s: TargetStatus) {
    forall i :: 0 <= i < |runs| ==> runs[i].status == s
  }

  /** Findings as promotion leaves them. */
  function PromotedInto(x: Texts, findings: seq<Value>, runs: seq<ToolRun>): seq<Value> {
    Promoted(x, EnrichedAll(findings, ResultsOf(runs)), AllItems(ResultsOf(runs)))
  }

  /** Escalation of a target that did not fail, time out or get skipped. */
  function Escalated(x: Texts, t: Observed, runs: seq<ToolRun>): Observed {
    if t.status.Failed? || t.status.Timeout? || t.status.Skipped? || runs == [] then t
    else
      Observed(if t.status.Clean? && AnySignal(runs) then Findings else t.status, PromotedInto(x, t.findings, runs))
  }

  function NonSkipped(runs: seq<ToolRun>): seq<ToolRun> {
    if runs == [] then []
    else
      var rest := NonSkipped(runs[..|runs| - 1]);
      if runs[|runs| - 1].status.Skipped? then rest else rest + [runs[|runs| - 1]]
  }

  function FallbackStatus(findings: seq<Value>, runs: seq<ToolRun>): TargetStatus {
    var shown := NonSkipped(runs);
    if findings != [] || AnySignal(runs) then Findings
    else if AnyStatus(shown, Clean) then Clean
    else if AnyStatus(shown, Timeout) then Timeout
    else if AnyStatus(shown, ToolUnavailable) then ToolUnavailable
    else if shown != [] && AllStatus(shown, NotApplicable) then NotApplicable
    else if runs != [] && AllStatus(runs, Skipped) then Skipped
    else if AllStatus(runs, NotApplicable) then NotApplicable
    else Failed
  }

  /** The tool-only fallback starts from an empty crash pack. */
  function FellBack(x: Texts, runs: seq<ToolRun>): Observed {
    var findings := PromotedInto(x, [], runs);
    Observed(FallbackStatus(findings, runs), findings)
  }

  // ----- when the status and the count disagree -----

  lemma {:induction false} AddsSomethingIff(x: Texts, results: seq<Promotion.Result>)
    ensures Promoted(x, [], AllItems(results)) == [] <==>
      forall i :: 0 <= i < |results| ==> !(Eligible(results[i]) && results[i].detections != [])
  {
    AddsNothingIff(x, Loaded(x, []), AllItems(results));
    AddsWhenLonger(x, Loaded(x, []), AllItems(results));
    NoItemsIff(results);
    if AllItems(results) != [] {
      assert AllItems(results)[0] in AllItems(results);
      assert !Settled(x, Loaded(x, []), AllItems(results)[0]);
    }
  }

  lemma {:induction false} NoItemsIff(results: seq<Promotion.Result>)
    ensures AllItems(results) == [] <==>
      forall i :: 0 <= i < |results| ==> !(Eligible(results[i]) && results[i].detections != [])
  {
    if results != [] {
      var before := results[..|results| - 1];
      NoItemsIff(before);
      assert forall i :: 0 <= i < |before| ==> results[i] == before[i];
      assert ItemsOf(results[|results| - 1]) == [] <==>
        !(Eligible(results[|results| - 1]) && results[|results| - 1].detections != []);
    }
  }

  /** A result with a detection that promotion takes. */
  predicate Promotes(run: ToolRun) {
    Eligible(run.result) && run.result.detections != []
  }

  lemma PromotedFromNothing(x: Texts, runs: seq<ToolRun>)
    ensures PromotedInto(x, [], runs) == [] <==> forall i :: 0 <= i < |runs| ==> !Promotes(runs[i])
  {
    assert EnrichedAll([], ResultsOf(runs)) == [];
    AddsSomethingIff(x, ResultsOf(runs));
    assert forall i :: 0 <= i < |runs| ==> ResultsOf(runs)[i] == runs[i].result;
  }

  /** A status that says findings without one in the list: from a clean native run whose
      escalation signals something promotion does not take, and in no other way. */
  lemma StatusWithoutCountIff(x: Texts, timedOut: bool, findings: seq<Value>, runs: seq<ToolRun>)
    ensures var t := Escalated(x, NativeRun(timedOut, findings), runs);
      t.status.Findings? && t.findings == [] <==>
        !timedOut && findings == [] && AnySignal(runs) && forall i :: 0 <= i < |runs| ==> !Promotes(runs[i])
    ensures var t := FellBack(x, runs);
      t.status.Findings? && t.findings == [] <==>
        AnySignal(runs) && forall i :: 0 <= i < |runs| ==> !Promotes(runs[i])
  {
    PromotedFromNothing(x, runs);
    PromotionAppends(x, Loaded(x, EnrichedAll(findings, ResultsOf(runs))), AllItems(ResultsOf(runs)));
  }

  // ----- the attempts of a repeated run -----

  /** How an attempt came about. */
  datatype Story =
    | Native(timedOut: bool, findings: seq<Value>, runs: seq<ToolRun>)
    | Errored
    | Fallback(runs: seq<ToolRun>)

  function Outcome(x: Texts, s: Story): Observed {
    match s
    case Native(timedOut, findings, runs) => Escalated(x, NativeRun(timedOut, findings), runs)
    case Errored => FAILED_RUN
    case Fallback(runs) => FellBack(x, runs)
  }

  /** What the runners of the repository return: a signal comes with success, a detection
      and a non-empty list of classes, and a target without findings is never given to gdb. */
  predicate OwnRuns(findings: seq<Value>, runs: seq<ToolRun>) {
    forall i :: 0 <= i < |runs| && Signals(runs[i]) ==>
      var res := runs[i].result;
      res.success && res.confirmed && res.detected != [] && res.detections != []
      && (findings == [] ==> res.tool != Ascii("gdb"))
  }

  predicate OwnStory(s: Story) {
    match s
    case Native(_, findings, runs) => OwnRuns(findings, runs)
    case Errored => true
    case Fallback(runs) => OwnRuns([], runs)
  }

  predicate Tells(x: Texts, s: Story, a: Attempt) {
    a.status == Outcome(x, s).status && a.findingsCount == |Outcome(x, s).findings|
  }

  /** Without a signal no run promotes anything. */
  lemma CountedMeansFailed(x: Texts, s: Story, a: Attempt)
    requires OwnStory(s) && Tells(x, s, a)
    ensures a.findingsCount > 0 ==> Fails(a)
    ensures a.status.Findings? ==> a.findingsCount > 0
  {
    match s
    case Native(timedOut, findings, runs) =>
      StatusWithoutCountIff(x, timedOut, findings, runs);
      SignalsPromote(x, findings, runs);
    case Errored =>
    case Fallback(runs) =>
      StatusWithoutCountIff(x, false, [], runs);
      SignalsPromote(x, [], runs);
  }

  lemma SignalsPromote(x: Texts, findings: seq<Value>, runs: seq<ToolRun>)
    requires OwnRuns(findings, runs)
    ensures findings == [] && AnySignal(runs) ==> exists i :: 0 <= i < |runs| && Promotes(runs[i])
    ensures findings == [] && !AnySignal(runs) ==> PromotedInto(x, findings, runs) == []
  {
    PromotedFromNothing(x, runs);
    if findings == [] && AnySignal(runs) {
      var i :| 0 <= i < |runs| && Signals(runs[i]);
      assert Promotes(runs[i]);
    }
  }

  /** Over attempts made from the repository's own tool results there is best evidence
      exactly when there is a first failure, and never before it. */
  lemma OwnAttemptsHaveEvidence(x: Texts, stories: seq<Story>, attempts: seq<Attempt>)
    requires |stories| == |attempts|
    requires forall i :: 0 <= i < |stories| ==> OwnStory(stories[i]) && Tells(x, stories[i], attempts[i])
    ensures BestEvidence(attempts).Some? <==> FirstFailureIn(attempts).Some?
    ensures BestEvidence(attempts).Some? ==> FirstFailureIn(attempts).value <= BestEvidence(attempts).value
  {
    forall i | 0 <= i < |attempts|
      ensures (attempts[i].findingsCount > 0 ==> Fails(attempts[i]))
        && (attempts[i].status.Findings? ==> attempts[i].findingsCount > 0)
    {
      CountedMeansFailed(x, stories[i], attempts[i]);
    }
    EvidenceAndFailureIff(attempts);
  }

  // ----- the statuses -----

  lemma {:induction false} NonSkippedAre(runs: seq<ToolRun>, run: ToolRun)
    ensures run in NonSkipped(runs) <==> run in runs && !run.status.Skipped?
  {
    if runs != [] {
      NonSkippedAre(runs[..|runs| - 1], run);
      assert runs == runs[..|runs| - 1] + [runs[|runs| - 1]];
    }
  }

  ghost predicate Has(runs: seq<ToolRun>, s: TargetStatus) {
    exists run :: run in runs && run.status == s
  }

  lemma ShownStatus(runs: seq<ToolRun>, s: TargetStatus)
    ensures AnyStatus(NonSkipped(runs), s) <==> Has(runs, s) && !s.Skipped?
    ensures AllStatus(NonSkipped(runs), s) <==> forall run :: run in runs && !run.status.Skipped? ==> run.status == s
    ensures NonSkipped(runs) != [] <==> exists run :: run in runs && !run.status.Skipped?
  {
    var shown := NonSkipped(runs);
    forall run ensures run in shown <==> run in runs && !run.status.Skipped? {
      NonSkippedAre(runs, run);
    }
    forall i | 0 <= i < |shown| ensures shown[i] in shown {
    }
    if shown != [] {
      assert shown[0] in shown;
    }
    if AllStatus(shown, s) {
      forall run | run in runs && !run.status.Skipped? ensures run.status == s {
        assert run in shown;
      }
    }
  }

  ghost predicate Quiet(findings: seq<Value>, runs: seq<ToolRun>) {
    findings == [] && forall run :: run in runs ==> !run.result.confirmed && run.result.detected == []
  }

  lemma QuietIff(findings: seq<Value>, runs: seq<ToolRun>)
    ensures Quiet(findings, runs) <==> findings == [] && !AnySignal(runs)
  {
    forall i | 0 <= i < |runs| ensures runs[i] in runs {
    }
  }

  ghost predicate RanOn(runs: seq<ToolRun>) {
    Has(runs, Clean) || Has(runs, Timeout) || Has(runs, ToolUnavailable)
  }

  lemma EarlyStatuses(findings: seq<Value>, runs: seq<ToolRun>)
    ensures var s, quiet := FallbackStatus(findings, runs), Quiet(findings, runs);
      && (s == Findings <==> !quiet)
      && (s == Clean <==> quiet && Has(runs, Clean))
      && (s == Timeout <==> quiet && Has(runs, Timeout) && !Has(runs, Clean))
      && (s == ToolUnavailable <==> quiet && Has(runs, ToolUnavailable) && !Has(runs, Clean) && !Has(runs, Timeout))
  {
    QuietIff(findings, runs);
    ShownStatus(runs, Clean);
    ShownStatus(runs, Timeout);
    ShownStatus(runs, ToolUnavailable);
  }

  lemma LateStatuses(findings: seq<Value>, runs: seq<ToolRun>)
    requires Quiet(findings, runs) && !RanOn(runs)
    ensures var s := FallbackStatus(findings, runs);
      && (s == Failed <==> Has(runs, Failed) || Has(runs, Findings))
      && (s == Skipped <==> runs != [] && forall run :: run in runs ==> run.status == Skipped)
      && (s == NotApplicable <==>
            !Has(runs, Failed) && !Has(runs, Findings) && (runs == [] || Has(runs, NotApplicable)))
  {
    EarlyStatuses(findings, runs);
    QuietIff(findings, runs);
    ShownStatus(runs, Clean);
    ShownStatus(runs, Timeout);
    ShownStatus(runs, ToolUnavailable);
    ShownStatus(runs, NotApplicable);
    forall i | 0 <= i < |runs| ensures runs[i] in runs {
    }
    if runs != [] {
      assert runs[0] in runs;
    }
  }

  /** Findings or a signal first; then a clean run before a timeout before a missing tool;
      then, of what is left, any failure before the tools that did not apply, and a skip only
      where all were skipped. No runs at all read as not applicable. */
  lemma FallbackStatusIs(findings: seq<Value>, runs: seq<ToolRun>)
    ensures var s := FallbackStatus(findings, runs);
      var late := Quiet(findings, runs) && !RanOn(runs);
      && (s == Findings <==> !Quiet(findings, runs))
      && (s == Clean <==> Quiet(findings, runs) && Has(runs, Clean))
      && (s == Timeout <==> Quiet(findings, runs) && Has(runs, Timeout) && !Has(runs, Clean))
      && (s == ToolUnavailable <==>
            Quiet(findings, runs) && Has(runs, ToolUnavailable) && !Has(runs, Clean) && !Has(runs, Timeout))
      && (s == Failed <==> late && (Has(runs, Failed) || Has(runs, Findings)))
      && (s == Skipped <==> late && runs != [] && forall run :: run in runs ==> run.status == Skipped)
      && (s == NotApplicable <==>
            late && !Has(runs, Failed) && !Has(runs, Findings) && (runs == [] || Has(runs, NotApplicable)))
  {
    EarlyStatuses(findings, runs);
    if Quiet(findings, runs) && !RanOn(runs) {
      LateStatuses(findings, runs);
    }
  }

  /** Only a clean target changes its status, and a failed, timed-out or skipped one nothing. */
  lemma OnlyCleanTurns(x: Texts, t: Observed, runs: seq<ToolRun>)
    ensures Escalated(x, t, runs).status ==
      if t.status == Clean && exists i :: 0 <= i < |runs| && Signals(runs[i]) then Findings else t.status
    ensures t.status in {Failed, Timeout, Skipped} ==> Escalated(x, t, runs) == t
  {
  }

  /** A native run times out, has findings or is clean, and escalation turns a clean one
      into findings exactly where some tool signals. */
  lemma EscalatedStatusIs(x: Texts, timedOut: bool, findings: seq<Value>, runs: seq<ToolRun>)
    ensures var t := Escalated(x, NativeRun(timedOut, findings), runs);
      && t.status == (if timedOut then Timeout
                      else if findings != [] || exists i :: 0 <= i < |runs| && Signals(runs[i]) then Findings
                      else Clean)
      && (findings == [] && !timedOut ==> t.findings == PromotedInto(x, [], runs))
  {
    if runs == [] {
      assert EnrichedAll([], ResultsOf(runs)) == [] && AllItems(ResultsOf(runs)) == [];
    }
  }
}
