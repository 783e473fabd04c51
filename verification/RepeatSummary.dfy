/** Totals and selections of a repeated run. */
module RepeatSummary {
  import opened Words
  import opened Grouping
  import opened Escalation
  import IssueGroups

  datatype Outcome = Pass | Finding | Failure | TimedOut | Inconclusive

  function OutcomeOf(s: TargetStatus): Outcome {
    match s
    case Clean => Pass
    case Findings => Finding
    case Failed => Failure
    case Skipped => Failure
    case Timeout => TimedOut
    case ToolUnavailable => Inconclusive
    case NotApplicable => Inconclusive
  }

  function StatusName(s: TargetStatus): Text {
    IssueGroups.Ascii(match s
      case Clean => "clean" case Findings => "findings" case Failed => "failed" case Timeout => "timeout"
      case Skipped => "skipped" case ToolUnavailable => "tool_unavailable" case NotApplicable => "not_applicable")
  }

  function OutcomeName(o: Outcome): Text {
    IssueGroups.Ascii(match o
      case Pass => "pass" case Finding => "finding" case Failure => "failure" case TimedOut => "timeout"
      case Inconclusive => "inconclusive")
  }

  /** The per-class counts of an attempt are an ordered map, listed in key order. */
  datatype Attempt = Attempt(number: u32, status: TargetStatus, findingsCount: nat, byClass: seq<(Text, nat)>)

  predicate IsFailureLike(o: Outcome) {
    o.Finding? || o.Failure? || o.TimedOut?
  }

  type Totals = map<Text, nat>

  function Bumped(totals: Totals, key: Text, weight: nat): Totals {
    totals[key := weight + (if key in totals then totals[key] else 0)]
  }

  /** Totals over keyed weights: each key with the weight it carries, and no other key. */
  ghost predicate TotalsOf(keys: seq<Text>, ws: seq<nat>, totals: Totals)
    requires |keys| == |ws|
  {
    forall k :: (k in totals <==> k in keys) && (k in totals ==> totals[k] == WeightOf(keys, ws, k))
  }

  lemma {:induction false} AbsentWeighsNothing(keys: seq<Text>, ws: seq<nat>, k: Text)
    requires |keys| == |ws| && k !in keys
    ensures WeightOf(keys, ws, k) == 0
  {
    if keys != [] {
      assert keys[|keys| - 1] in keys;
      AbsentWeighsNothing(keys[..|keys| - 1], ws[..|ws| - 1], k);
    }
  }

  lemma BumpedTotals(keys: seq<Text>, ws: seq<nat>, totals: Totals, key: Text, weight: nat)
    requires |keys| == |ws| && TotalsOf(keys, ws, totals)
    ensures TotalsOf(keys + [key], ws + [weight], Bumped(totals, key, weight))
  {
    var keys', ws' := keys + [key], ws + [weight];
    assert keys'[..|keys|] == keys && ws'[..|ws|] == ws;
    if key !in keys {
      AbsentWeighsNothing(keys, ws, key);
    }
  }

  function Statuses(attempts: seq<Attempt>): seq<Text> {
    seq(|attempts|, i requires 0 <= i < |attempts| => StatusName(attempts[i].status))
  }

  function Outcomes(attempts: seq<Attempt>): seq<Text> {
    seq(|attempts|, i requires 0 <= i < |attempts| => OutcomeName(OutcomeOf(attempts[i].status)))
  }

  function Ones(n: nat): seq<nat> {
    seq(n, i => 1)
  }

  function ClassKeys(attempts: seq<Attempt>): seq<Text> {
    if attempts == [] then []
    else
      var last := attempts[|attempts| - 1].byClass;
      ClassKeys(attempts[..|attempts| - 1]) + seq(|last|, i requires 0 <= i < |last| => last[i].0)
  }

  function ClassCounts(attempts: seq<Attempt>): (ws: seq<nat>)
    ensures |ws| == |ClassKeys(attempts)|
  {
    if attempts == [] then []
    else
      var last := attempts[|attempts| - 1].byClass;
      ClassCounts(attempts[..|attempts| - 1]) + seq(|last|, i requires 0 <= i < |last| => last[i].1)
  }

  method NameTotals(names: seq<Text>) returns (totals: Totals)
    ensures TotalsOf(names, Ones(|names|), totals)
  {
    totals := map[];
    for i := 0 to |names|
      invariant TotalsOf(names[..i], Ones(i), totals)
    {
      BumpedTotals(names[..i], Ones(i), totals, names[i], 1);
      assert names[..i + 1] == names[..i] + [names[i]] && Ones(i + 1) == Ones(i) + [1];
      totals := Bumped(totals, names[i], 1);
    }
    assert names[..|names|] == names;
  }

  method StatusAndOutcomeTotals(attempts: seq<Attempt>) returns (byStatus: Totals, byOutcome: Totals)
    ensures TotalsOf(Statuses(attempts), Ones(|attempts|), byStatus)
    ensures TotalsOf(Outcomes(attempts), Ones(|attempts|), byOutcome)
  {
    byStatus := NameTotals(Statuses(attempts));
    byOutcome := NameTotals(Outcomes(attempts));
  }

  method FindingTotalsByClass(attempts: seq<Attempt>) returns (totals: Totals)
    ensures TotalsOf(ClassKeys(attempts), ClassCounts(attempts), totals)
  {
    totals := map[];
    for i := 0 to |attempts|
      invariant TotalsOf(ClassKeys(attempts[..i]), ClassCounts(attempts[..i]), totals)
    {
      assert attempts[..i + 1][..i] == attempts[..i];
      totals := AddClasses(attempts[i].byClass, totals, ClassKeys(attempts[..i]), ClassCounts(attempts[..i]));
    }
    assert attempts[..|attempts|] == attempts;
  }

  method AddClasses(byClass: seq<(Text, nat)>, totals: Totals, ghost keys: seq<Text>, ghost ws: seq<nat>)
    returns (totals': Totals)
    requires |keys| == |ws| && TotalsOf(keys, ws, totals)
    ensures var n := |byClass|;
      TotalsOf(keys + seq(n, i requires 0 <= i < n => byClass[i].0),
               ws + seq(n, i requires 0 <= i < n => byClass[i].1), totals')
  {
    totals' := totals;
    ghost var keys', ws' := keys, ws;
    for i := 0 to |byClass|
      invariant keys' == keys + seq(i, j requires 0 <= j < i => byClass[j].0)
      invariant ws' == ws + seq(i, j requires 0 <= j < i => byClass[j].1)
      invariant TotalsOf(keys', ws', totals')
    {
      BumpedTotals(keys', ws', totals', byClass[i].0, byClass[i].1);
      totals' := Bumped(totals', byClass[i].0, byClass[i].1);
      keys', ws' := keys' + [byClass[i].0], ws' + [byClass[i].1];
    }
  }

  function TotalOver(order: seq<Text>, totals: Totals): nat {
    if order == [] then 0 else (if order[0] in totals then totals[order[0]] else 0) + TotalOver(order[1..], totals)
  }

  lemma {:induction false} TotalIsWeight(order: seq<Text>, keys: seq<Text>, ws: seq<nat>, totals: Totals)
    requires |keys| == |ws| && TotalsOf(keys, ws, totals)
    ensures TotalOver(order, totals) == WeightOver(order, keys, ws)
  {
    if order != [] {
      TotalIsWeight(order[1..], keys, ws, totals);
      if order[0] !in keys {
        AbsentWeighsNothing(keys, ws, order[0]);
      }
    }
  }

  /** Summed over their keys, totals give back everything that was counted: the number of
      attempts for status and outcome totals, every finding for the class totals. */
  lemma TotalsConserve(keys: seq<Text>, ws: seq<nat>, totals: Totals)
    requires |keys| == |ws| && TotalsOf(keys, ws, totals)
    ensures TotalOver(KeyOrder(keys), totals) == Sum(ws)
    ensures ws == Ones(|keys|) ==> TotalOver(KeyOrder(keys), totals) == |keys|
  {
    KeyOrderIs(keys);
    TotalIsWeight(KeyOrder(keys), keys, ws, totals);
    WeightConserved(KeyOrder(keys), keys, ws);
    IssueGroups.UnitSum(|keys|);
  }

  /** The first attempt that is not a pass, and the attempt with the best evidence:
      findings before timeouts before failures. */
  function FirstWhere(attempts: seq<Attempt>, p: Attempt -> bool): (i: Option<nat>)
    ensures i.None? <==> forall k :: 0 <= k < |attempts| ==> !p(attempts[k])
    ensures i.Some? ==> i.value < |attempts| && p(attempts[i.value]) && forall k :: 0 <= k < i.value ==> !p(attempts[k])
  {
    if attempts == [] then None
    else
      var i := FirstWhere(attempts[..|attempts| - 1], p);
      if i.Some? then i
      else if p(attempts[|attempts| - 1]) then Some(|attempts| - 1)
      else None
  }

  function FirstFailureIn(attempts: seq<Attempt>): Option<nat> {
    FirstWhere(attempts, (a: Attempt) => IsFailureLike(OutcomeOf(a.status)))
  }

  function BestEvidence(attempts: seq<Attempt>): Option<nat> {
    var found := FirstWhere(attempts, (a: Attempt) => a.findingsCount > 0);
    if found.Some? then found
    else
      var timedOut := FirstWhere(attempts, (a: Attempt) => OutcomeOf(a.status).TimedOut?);
      if timedOut.Some? then timedOut
      else FirstWhere(attempts, (a: Attempt) => OutcomeOf(a.status).Failure?)
  }

  predicate Fails(a: Attempt) {
    IsFailureLike(OutcomeOf(a.status))
  }

  /** For every list of attempts: there is a first failure and no best evidence exactly when
      some status says findings while none are counted and nothing timed out or failed; and
      there is best evidence before any failure exactly when findings are counted on an
      attempt up to which nothing failed. */
  lemma EvidenceAndFailureIff(attempts: seq<Attempt>)
    ensures FirstFailureIn(attempts).Some? && BestEvidence(attempts).None? <==>
      && (exists i :: 0 <= i < |attempts| && attempts[i].status.Findings?)
      && forall i :: 0 <= i < |attempts| ==>
           attempts[i].findingsCount == 0 && (Fails(attempts[i]) ==> attempts[i].status.Findings?)
    ensures
      && BestEvidence(attempts).Some?
      && (FirstFailureIn(attempts).Some? ==> BestEvidence(attempts).value < FirstFailureIn(attempts).value) <==>
      exists i :: 0 <= i < |attempts| && attempts[i].findingsCount > 0
        && forall j :: 0 <= j <= i ==> !Fails(attempts[j])
  {
  }

  const STATUS_ONLY: seq<Attempt> := [Attempt(1, Findings, 0, [])]
  const COUNT_ONLY: seq<Attempt> := [Attempt(1, Clean, 1, [])]

  /** A status without a count is a failure without evidence, and a count without a status
      is evidence without a failure. */
  lemma EvidenceMayBeMissing()
    ensures FirstFailureIn(STATUS_ONLY) == Some(0) && BestEvidence(STATUS_ONLY).None?
    ensures FirstFailureIn(COUNT_ONLY).None? && BestEvidence(COUNT_ONLY) == Some(0)
  {
    assert STATUS_ONLY[..0] == [] && COUNT_ONLY[..0] == [];
    assert Fails(STATUS_ONLY[0]) && !Fails(COUNT_ONLY[0]);
  }

  // ----- the selections in terms of statuses -----

  ghost predicate FirstWith(attempts: seq<Attempt>, statuses: set<TargetStatus>, i: nat) {
    && i < |attempts| && attempts[i].status in statuses
    && forall j :: 0 <= j < i ==> attempts[j].status !in statuses
  }

  ghost predicate NoneWith(attempts: seq<Attempt>, statuses: set<TargetStatus>) {
    forall j :: 0 <= j < |attempts| ==> attempts[j].status !in statuses
  }

  /** The first failure is the first attempt that is neither a pass nor inconclusive. */
  lemma FirstFailureIs(attempts: seq<Attempt>, i: nat)
    ensures FirstFailureIn(attempts) == Some(i) <==> FirstWith(attempts, {Findings, Failed, Skipped, Timeout}, i)
    ensures FirstFailureIn(attempts).None? <==> NoneWith(attempts, {Findings, Failed, Skipped, Timeout})
  {
  }

  /** The best evidence is the first attempt with findings; without any the first that timed
      out; and without those the first that failed or was skipped. */
  lemma BestEvidenceIs(attempts: seq<Attempt>, i: nat)
    ensures var counted := exists j :: 0 <= j < |attempts| && attempts[j].findingsCount > 0;
      BestEvidence(attempts) == Some(i) <==>
        if counted then
          && i < |attempts| && attempts[i].findingsCount > 0
          && forall j :: 0 <= j < i ==> attempts[j].findingsCount == 0
        else if !NoneWith(attempts, {Timeout}) then FirstWith(attempts, {Timeout}, i)
        else FirstWith(attempts, {Failed, Skipped}, i)
  {
  }

  /** Each status has a name of its own; the outcomes are named by what they gather. */
  lemma NamesTellStatuses(s: TargetStatus, t: TargetStatus)
    ensures StatusName(s) == StatusName(t) <==> s == t
    ensures OutcomeName(OutcomeOf(s)) == IssueGroups.Ascii(
      if s.Clean? then "pass" else if s.Findings? then "finding" else if s.Failed? || s.Skipped? then "failure"
      else if s.Timeout? then "timeout" else "inconclusive")
  {
    assert |StatusName(Failed)| == 6 && |StatusName(Clean)| == 5 && |StatusName(Findings)| == 8;
    assert |StatusName(Timeout)| == 7 && |StatusName(Skipped)| == 7;
    assert StatusName(Timeout)[0] == 116 && StatusName(Skipped)[0] == 115;
    assert |StatusName(ToolUnavailable)| == 16 && |StatusName(NotApplicable)| == 14;
  }

  /** An outcome total is the number of attempts with that outcome. */
  lemma FailureTotal(attempts: seq<Attempt>, totals: Totals)
    requires TotalsOf(Outcomes(attempts), Ones(|attempts|), totals)
    ensures var k := IssueGroups.Ascii("failure");
      && (k in totals <==> !NoneWith(attempts, {Failed, Skipped}))
      && (k in totals ==> totals[k] == |PositionsOf(Outcomes(attempts), k)|)
      && forall i :: i in PositionsOf(Outcomes(attempts), k) <==>
           0 <= i < |attempts| && attempts[i].status in {Failed, Skipped}
  {
    var k, names := IssueGroups.Ascii("failure"), Outcomes(attempts);
    OutcomeNamesDiffer();
    PositionsAre(names, k);
    IssueGroups.UnitWeights(names, k);
    forall i | 0 <= i < |attempts| ensures names[i] == k <==> attempts[i].status in {Failed, Skipped} {
    }
  }

  lemma OutcomeNamesDiffer()
    ensures forall o :: OutcomeName(o) == IssueGroups.Ascii("failure") <==> o.Failure?
  {
    assert |OutcomeName(Pass)| == 4 && |OutcomeName(Inconclusive)| == 12;
    assert OutcomeName(Finding)[1] == 105 && OutcomeName(Failure)[1] == 97 && OutcomeName(TimedOut)[0] == 116;
  }
}
