/** Aggregation of issue groups over the attempts of a repeated run. */
module RepeatGroups {
  import opened Words
  import opened Grouping
  import IssueGroups

  datatype Occurrence = Occurrence(
    attempt: u32, target: Text, groupId: Text, findingCount: nat, issueGroups: Text, crashpack: Text)

  datatype Labels = Labels(cls: Text, operation: Text, severity: Text, confidence: Text)

  datatype Input = Input(fingerprint: Text, labels: Labels, occurrence: Occurrence)

  datatype RepeatGroup = RepeatGroup(
    id: Text, fingerprint: Text, labels: Labels, attemptCount: nat, occurrenceCount: nat,
    firstAttempt: u32, lastAttempt: u32, representative: Occurrence, attempts: seq<Occurrence>)

  function GroupId(fingerprint: Text): Text {
    var suffix := IssueGroups.AfterLastDash(fingerprint);
    IssueGroups.Ascii("RIG-") + suffix[..Min(|suffix|, 12)]
  }

  // ----- the stable sort of occurrences -----

  predicate Before(a: Occurrence, b: Occurrence) {
    || a.attempt < b.attempt
    || (a.attempt == b.attempt && Less(a.target, b.target))
    || (a.attempt == b.attempt && a.target == b.target && Less(a.groupId, b.groupId))
  }

  function Placed(s: seq<Occurrence>, o: Occurrence): (r: seq<Occurrence>)
    ensures r != []
  {
    if s == [] || Before(o, s[0]) then [o] + s else [s[0]] + Placed(s[1..], o)
  }

  function Sorted(s: seq<Occurrence>): (r: seq<Occurrence>)
    ensures s != [] ==> r != []
  {
    if s == [] then [] else Placed(Sorted(s[..|s| - 1]), s[|s| - 1])
  }

  ghost predicate InOrder(s: seq<Occurrence>) {
    forall i, j :: 0 <= i < j < |s| ==> !Before(s[j], s[i])
  }

  lemma BeforeIsStrict(a: Occurrence, b: Occurrence)
    ensures !(Before(a, b) && Before(b, a))
  {
    LessTrichotomy(a.target, b.target);
    LessTrichotomy(a.groupId, b.groupId);
  }

  /** Not being after is transitive. */
  lemma NotAfterTransitive(a: Occurrence, b: Occurrence, c: Occurrence)
    requires !Before(b, a) && !Before(c, b)
    ensures !Before(c, a)
  {
    LessTrichotomy(a.target, b.target);
    LessTrichotomy(b.target, c.target);
    LessTrichotomy(a.groupId, b.groupId);
    LessTrichotomy(b.groupId, c.groupId);
    LessTrichotomy(a.target, c.target);
    LessTrichotomy(a.groupId, c.groupId);
    if Less(a.target, b.target) && Less(b.target, c.target) { LessTransitive(a.target, b.target, c.target); }
    if Less(a.groupId, b.groupId) && Less(b.groupId, c.groupId) { LessTransitive(a.groupId, b.groupId, c.groupId); }
  }

  lemma {:induction false} PlacedKeepsAll(s: seq<Occurrence>, o: Occurrence)
    ensures multiset(Placed(s, o)) == multiset(s) + multiset{o}
    ensures forall x :: x in Placed(s, o) <==> x in s || x == o
  {
    if s != [] {
      assert s == [s[0]] + s[1..];
      PlacedKeepsAll(s[1..], o);
    }
  }

  lemma InOrderWith(a: Occurrence, s: seq<Occurrence>)
    requires InOrder(s) && forall j :: 0 <= j < |s| ==> !Before(s[j], a)
    ensures InOrder([a] + s)
  {
    var t := [a] + s;
    forall i, j | 0 <= i < j < |t| ensures !Before(t[j], t[i]) {
      assert t[j] == s[j - 1] && (i == 0 || t[i] == s[i - 1]);
    }
  }

  lemma {:induction false} PlacedInOrder(s: seq<Occurrence>, o: Occurrence)
    requires InOrder(s)
    ensures InOrder(Placed(s, o)) && multiset(Placed(s, o)) == multiset(s) + multiset{o}
  {
    PlacedKeepsAll(s, o);
    if s != [] {
      if Before(o, s[0]) {
        BeforeIsStrict(o, s[0]);
        forall j | 0 <= j < |s| ensures !Before(s[j], o) {
          if j > 0 { NotAfterTransitive(o, s[0], s[j]); }
        }
        InOrderWith(o, s);
      } else {
        PlacedInOrder(s[1..], o);
        PlacedKeepsAll(s[1..], o);
        var rest := Placed(s[1..], o);
        forall j | 0 <= j < |rest| ensures !Before(rest[j], s[0]) {
          assert rest[j] in rest;
        }
        InOrderWith(s[0], rest);
      }
    }
  }

  /** The sort is a sorted permutation. */
  lemma {:induction false} SortedIsPermutation(s: seq<Occurrence>)
    ensures InOrder(Sorted(s)) && multiset(Sorted(s)) == multiset(s)
  {
    if s != [] {
      SortedIsPermutation(s[..|s| - 1]);
      PlacedInOrder(Sorted(s[..|s| - 1]), s[|s| - 1]);
      assert s == s[..|s| - 1] + [s[|s| - 1]];
    }
  }

  // ----- the set of attempt numbers -----

  ghost predicate Increasing(ns: seq<u32>) {
    forall i, j :: 0 <= i < j < |ns| ==> ns[i] < ns[j]
  }

  function WithNumber(ns: seq<u32>, n: u32): seq<u32> {
    if ns == [] || n < ns[0] then [n] + ns
    else if n == ns[0] then ns
    else [ns[0]] + WithNumber(ns[1..], n)
  }

  lemma {:induction false} WithNumberIncreasing(ns: seq<u32>, n: u32)
    requires Increasing(ns)
    ensures Increasing(WithNumber(ns, n))
    ensures forall x :: x in WithNumber(ns, n) <==> x in ns || x == n
  {
    if ns != [] && n > ns[0] {
      WithNumberIncreasing(ns[1..], n);
      var rest := WithNumber(ns[1..], n);
      forall j | 0 <= j < |rest| ensures ns[0] < rest[j] {
        assert rest[j] in rest;
      }
    }
  }

  function Numbers(s: seq<Occurrence>): seq<u32> {
    if s == [] then [] else WithNumber(Numbers(s[..|s| - 1]), s[|s| - 1].attempt)
  }

  ghost function Attempts(s: seq<Occurrence>): set<u32> {
    set o | o in s :: o.attempt
  }

  lemma {:induction false} NumbersAreAttempts(s: seq<Occurrence>)
    ensures Increasing(Numbers(s)) && (s != [] ==> Numbers(s) != [])
    ensures forall n :: n in Numbers(s) <==> n in Attempts(s)
  {
    if s != [] {
      var before, last := s[..|s| - 1], s[|s| - 1];
      NumbersAreAttempts(before);
      WithNumberIncreasing(Numbers(before), last.attempt);
      assert s == before + [last];
      assert Attempts(s) == Attempts(before) + {last.attempt};
    }
  }

  ghost function Members(ns: seq<u32>): set<u32> {
    set n | n in ns
  }

  lemma {:induction false} IncreasingCount(ns: seq<u32>)
    requires Increasing(ns)
    ensures |Members(ns)| == |ns|
  {
    if ns != [] {
      var before, last := ns[..|ns| - 1], ns[|ns| - 1];
      IncreasingCount(before);
      assert ns == before + [last];
      assert Members(ns) == Members(before) + {last};
      assert last !in before;
    }
  }

  // ----- what a group holds -----

  function Keys(inputs: seq<Input>): seq<Text> {
    seq(|inputs|, i requires 0 <= i < |inputs| => inputs[i].fingerprint)
  }

  function Counts(inputs: seq<Input>): seq<nat> {
    seq(|inputs|, i requires 0 <= i < |inputs| => inputs[i].occurrence.findingCount)
  }

  /** The occurrences of one fingerprint, in input order. */
  function Of(inputs: seq<Input>, fp: Text): seq<Occurrence> {
    if inputs == [] then []
    else
      var before := Of(inputs[..|inputs| - 1], fp);
      if inputs[|inputs| - 1].fingerprint == fp then before + [inputs[|inputs| - 1].occurrence] else before
  }

  function CountOf(s: seq<Occurrence>): nat {
    if s == [] then 0 else CountOf(s[..|s| - 1]) + s[|s| - 1].findingCount
  }

  function FirstLabels(inputs: seq<Input>, fp: Text): Labels
    requires fp in Keys(inputs)
  {
    if inputs[0].fingerprint == fp then inputs[0].labels
    else
      assert Keys(inputs)[1..] == Keys(inputs[1..]);
      assert Keys(inputs) == [Keys(inputs)[0]] + Keys(inputs)[1..];
      FirstLabels(inputs[1..], fp)
  }

  /** The aggregate of one fingerprint, independent of how it is built. */
  ghost predicate Aggregates(inputs: seq<Input>, g: RepeatGroup) {
    var occurrences := Of(inputs, g.fingerprint);
    && g.id == GroupId(g.fingerprint)
    && g.fingerprint in Keys(inputs) && g.labels == FirstLabels(inputs, g.fingerprint)
    && occurrences != []
    && g.occurrenceCount == CountOf(occurrences)
    && g.attempts == Sorted(occurrences)
    && g.representative == g.attempts[0]
    && g.attemptCount == |Attempts(occurrences)|
    && g.firstAttempt in Attempts(occurrences) && g.lastAttempt in Attempts(occurrences)
    && forall n :: n in Attempts(occurrences) ==> g.firstAttempt <= n <= g.lastAttempt
  }

  ghost predicate Summary(inputs: seq<Input>, groups: seq<RepeatGroup>) {
    var order := KeyOrder(Keys(inputs));
    && |groups| == |order|
    && forall i :: 0 <= i < |groups| ==> groups[i].fingerprint == order[i] && Aggregates(inputs, groups[i])
  }

  // ----- the aggregation loop -----

  datatype Builder = Builder(labels: Labels, occurrenceCount: nat, numbers: seq<u32>, attempts: seq<Occurrence>)

  ghost predicate Builds(inputs: seq<Input>, fp: Text, b: Builder) {
    && fp in Keys(inputs) && b.labels == FirstLabels(inputs, fp)
    && b.attempts == Of(inputs, fp) && b.attempts != []
    && b.occurrenceCount == CountOf(b.attempts) && b.numbers == Numbers(b.attempts)
  }

  ghost predicate Building(inputs: seq<Input>, builders: map<Text, Builder>) {
    && (forall fp :: fp in builders <==> fp in Keys(inputs))
    && forall fp :: fp in builders ==> Builds(inputs, fp, builders[fp])
  }

  lemma KeysAppend(inputs: seq<Input>, x: Input)
    ensures Keys(inputs + [x]) == Keys(inputs) + [x.fingerprint]
    ensures (inputs + [x])[..|inputs|] == inputs && Keys(inputs + [x])[..|inputs|] == Keys(inputs)
  {
  }

  lemma {:induction false} FirstLabelsAppend(inputs: seq<Input>, x: Input, fp: Text)
    requires fp in Keys(inputs + [x])
    ensures FirstLabels(inputs + [x], fp) == if fp in Keys(inputs) then FirstLabels(inputs, fp) else x.labels
  {
    KeysAppend(inputs, x);
    if inputs != [] && inputs[0].fingerprint != fp {
      assert (inputs + [x])[1..] == inputs[1..] + [x];
      assert Keys(inputs) == [inputs[0].fingerprint] + Keys(inputs[1..]);
      assert Keys(inputs + [x]) == [inputs[0].fingerprint] + Keys(inputs[1..] + [x]);
      FirstLabelsAppend(inputs[1..], x, fp);
    } else if inputs != [] {
      assert Keys(inputs)[0] == fp;
    }
  }

  lemma {:induction false} OfNothing(inputs: seq<Input>, fp: Text)
    requires fp !in Keys(inputs)
    ensures Of(inputs, fp) == []
  {
    if inputs != [] {
      assert Keys(inputs)[|inputs| - 1] == inputs[|inputs| - 1].fingerprint;
      assert Keys(inputs[..|inputs| - 1]) == Keys(inputs)[..|inputs| - 1];
      OfNothing(inputs[..|inputs| - 1], fp);
    }
  }

  method AddOccurrence(builders: map<Text, Builder>, x: Input, ghost inputs: seq<Input>)
    returns (builders': map<Text, Builder>)
    requires Building(inputs, builders)
    ensures Building(inputs + [x], builders')
  {
    KeysAppend(inputs, x);
    var fp, o := x.fingerprint, x.occurrence;
    if fp in builders {
      var b := builders[fp];
      b := b.(occurrenceCount := b.occurrenceCount + o.findingCount,
              numbers := WithNumber(b.numbers, o.attempt), attempts := b.attempts + [o]);
      assert b.attempts[..|b.attempts| - 1] == builders[fp].attempts;
      builders' := builders[fp := b];
    } else {
      OfNothing(inputs, fp);
      assert [o][..0] == [];
      builders' := builders[fp := Builder(x.labels, o.findingCount, [o.attempt], [o])];
    }
    forall k | k in builders' ensures Builds(inputs + [x], k, builders'[k]) {
      FirstLabelsAppend(inputs, x, k);
    }
  }

  method Finish(fp: Text, b: Builder, ghost inputs: seq<Input>) returns (g: RepeatGroup)
    requires Builds(inputs, fp, b)
    ensures g.fingerprint == fp && Aggregates(inputs, g)
  {
    var sorted := Sorted(b.attempts);
    NumbersAreAttempts(b.attempts);
    IncreasingCount(b.numbers);
    assert Members(b.numbers) == Attempts(b.attempts);
    assert b.numbers[0] in b.numbers && b.numbers[|b.numbers| - 1] in b.numbers;
    g := RepeatGroup(GroupId(fp), fp, b.labels, |b.numbers|, b.occurrenceCount,
                     b.numbers[0], b.numbers[|b.numbers| - 1], sorted[0], sorted);
  }

  method AggregateRepeatIssueGroups(inputs: seq<Input>) returns (groups: seq<RepeatGroup>)
    ensures Summary(inputs, groups)
  {
    var builders: map<Text, Builder> := map[];
    var order: seq<Text> := [];
    for i := 0 to |inputs|
      invariant Building(inputs[..i], builders)
      invariant order == KeyOrder(Keys(inputs[..i]))
    {
      KeysAppend(inputs[..i], inputs[i]);
      assert inputs[..i + 1] == inputs[..i] + [inputs[i]];
      builders := AddOccurrence(builders, inputs[i], inputs[..i]);
      order := Inserted(order, inputs[i].fingerprint);
    }
    assert inputs[..|inputs|] == inputs;
    groups := FinishAll(order, builders, inputs);
  }

  method FinishAll(order: seq<Text>, builders: map<Text, Builder>, ghost inputs: seq<Input>)
    returns (groups: seq<RepeatGroup>)
    requires Building(inputs, builders) && order == KeyOrder(Keys(inputs))
    ensures Summary(inputs, groups)
  {
    KeyOrderIs(Keys(inputs));
    groups := [];
    for i := 0 to |order|
      invariant |groups| == i
      invariant forall j :: 0 <= j < i ==> groups[j].fingerprint == order[j] && Aggregates(inputs, groups[j])
    {
      assert order[i] in order;
      var g := Finish(order[i], builders[order[i]], inputs);
      groups := groups + [g];
    }
  }

  // ----- properties of a summary -----

  /** Fingerprints ascend, one group for each fingerprint of the input. */
  lemma OneGroupPerFingerprint(inputs: seq<Input>, groups: seq<RepeatGroup>)
    requires Summary(inputs, groups)
    ensures forall k, l :: 0 <= k < l < |groups| ==> Less(groups[k].fingerprint, groups[l].fingerprint)
    ensures forall i :: 0 <= i < |inputs| ==>
      exists k :: 0 <= k < |groups| && groups[k].fingerprint == inputs[i].fingerprint
  {
    var order := KeyOrder(Keys(inputs));
    KeyOrderIs(Keys(inputs));
    forall k, l | 0 <= k < l < |groups| ensures Less(groups[k].fingerprint, groups[l].fingerprint) {
      assert Less(order[k], order[l]);
    }
    forall i | 0 <= i < |inputs|
      ensures exists k :: 0 <= k < |groups| && groups[k].fingerprint == inputs[i].fingerprint
    {
      assert Keys(inputs)[i] in Keys(inputs);
      var k :| 0 <= k < |order| && order[k] == Keys(inputs)[i];
      assert groups[k].fingerprint == order[k];
    }
  }

  function CountAll(groups: seq<RepeatGroup>): nat {
    if groups == [] then 0 else groups[0].occurrenceCount + CountAll(groups[1..])
  }

  lemma {:induction false} CountIsWeight(inputs: seq<Input>, fp: Text)
    ensures CountOf(Of(inputs, fp)) == WeightOf(Keys(inputs), Counts(inputs), fp)
  {
    if inputs != [] {
      var before := inputs[..|inputs| - 1];
      CountIsWeight(before, fp);
      assert Keys(inputs)[..|inputs| - 1] == Keys(before) && Counts(inputs)[..|inputs| - 1] == Counts(before);
      var s := Of(inputs, fp);
      if inputs[|inputs| - 1].fingerprint == fp {
        assert s[..|s| - 1] == Of(before, fp);
      }
    }
  }

  lemma {:induction false} CountAllIsWeight(inputs: seq<Input>, groups: seq<RepeatGroup>, order: seq<Text>)
    requires |groups| == |order|
    requires forall i :: 0 <= i < |groups| ==> groups[i].fingerprint == order[i] && Aggregates(inputs, groups[i])
    ensures CountAll(groups) == WeightOver(order, Keys(inputs), Counts(inputs))
  {
    if groups != [] {
      CountIsWeight(inputs, order[0]);
      CountAllIsWeight(inputs, groups[1..], order[1..]);
    }
  }

  /** Occurrence counts add up to the finding counts of the input: nothing is lost or counted twice. */
  lemma OccurrencesConserved(inputs: seq<Input>, groups: seq<RepeatGroup>)
    requires Summary(inputs, groups)
    ensures CountAll(groups) == Sum(Counts(inputs))
  {
    KeyOrderIs(Keys(inputs));
    CountAllIsWeight(inputs, groups, KeyOrder(Keys(inputs)));
    WeightConserved(KeyOrder(Keys(inputs)), Keys(inputs), Counts(inputs));
  }

  lemma OrderedEnds(s: seq<Occurrence>, o: Occurrence)
    requires InOrder(s) && o in s
    ensures s[0].attempt <= o.attempt <= s[|s| - 1].attempt
  {
    var i :| 0 <= i < |s| && s[i] == o;
    assert i == 0 || !Before(s[i], s[0]);
    assert i == |s| - 1 || !Before(s[|s| - 1], s[i]);
  }

  lemma EndsCarryBounds(t: seq<Occurrence>, low: u32, high: u32)
    requires InOrder(t) && low in Attempts(t) && high in Attempts(t)
    requires forall n :: n in Attempts(t) ==> low <= n <= high
    ensures t != [] && t[0].attempt == low && t[|t| - 1].attempt == high
  {
    var first :| first in t && first.attempt == low;
    var last :| last in t && last.attempt == high;
    OrderedEnds(t, first);
    OrderedEnds(t, last);
    assert t[0].attempt in Attempts(t) && t[|t| - 1].attempt in Attempts(t);
  }

  /** The attempts of a group are its occurrences in order; the first and last of them
      carry the first and last attempt numbers. */
  lemma AttemptsSortedPermutation(inputs: seq<Input>, g: RepeatGroup)
    requires Aggregates(inputs, g)
    ensures InOrder(g.attempts) && multiset(g.attempts) == multiset(Of(inputs, g.fingerprint))
    ensures g.attempts[0].attempt == g.firstAttempt && g.attempts[|g.attempts| - 1].attempt == g.lastAttempt
    ensures g.representative.attempt == g.firstAttempt
  {
    var s := Of(inputs, g.fingerprint);
    SortedIsPermutation(s);
    MembersPermuted(s, g.attempts);
    assert Attempts(s) == Attempts(g.attempts);
    EndsCarryBounds(g.attempts, g.firstAttempt, g.lastAttempt);
  }

  // ----- input order does not matter to the numbers -----

  lemma {:induction false} OfConcat(a: seq<Input>, b: seq<Input>, fp: Text)
    ensures Of(a + b, fp) == Of(a, fp) + Of(b, fp)
    decreases |b|
  {
    if b == [] {
      assert a + b == a;
    } else {
      OfConcat(a, b[..|b| - 1], fp);
      assert (a + b)[..|a + b| - 1] == a + b[..|b| - 1];
    }
  }

  lemma WithoutOne<T>(b: seq<T>, j: nat)
    requires j < |b|
    ensures b == b[..j] + ([b[j]] + b[j + 1..])
    ensures multiset(b) == multiset(b[..j] + b[j + 1..]) + multiset{b[j]}
  {
    assert b == b[..j] + ([b[j]] + b[j + 1..]);
    calc {
      multiset(b);
      multiset(b[..j] + ([b[j]] + b[j + 1..]));
      multiset(b[..j]) + (multiset{b[j]} + multiset(b[j + 1..]));
      multiset(b[..j] + b[j + 1..]) + multiset{b[j]};
    }
  }

  lemma CancelOne<T>(m: multiset<T>, n: multiset<T>, x: T)
    requires m + multiset{x} == n + multiset{x}
    ensures m == n
  {
    assert m == (m + multiset{x}) - multiset{x};
  }

  /** Where a permutation keeps the last element, and what is left without it. */
  lemma LastElsewhere<T>(a: seq<T>, b: seq<T>) returns (j: nat)
    requires a != [] && multiset(a) == multiset(b)
    ensures j < |b| && b[j] == a[|a| - 1]
    ensures multiset(a[..|a| - 1]) == multiset(b[..j] + b[j + 1..])
    ensures b == b[..j] + ([b[j]] + b[j + 1..]) && a == a[..|a| - 1] + [b[j]]
  {
    var x := a[|a| - 1];
    assert x in multiset(b);
    j :| 0 <= j < |b| && b[j] == x;
    WithoutOne(b, j);
    WithoutOne(a, |a| - 1);
    assert a[..|a| - 1] + a[|a|..] == a[..|a| - 1];
    CancelOne(multiset(a[..|a| - 1]), multiset(b[..j] + b[j + 1..]), x);
  }

  lemma {:induction false} OfPermuted(a: seq<Input>, b: seq<Input>, fp: Text)
    requires multiset(a) == multiset(b)
    ensures multiset(Of(a, fp)) == multiset(Of(b, fp))
    decreases |a|
  {
    if a == [] {
      assert |multiset(b)| == 0;
    } else {
      var j := LastElsewhere(a, b);
      OfPermuted(a[..|a| - 1], b[..j] + b[j + 1..], fp);
      OfConcat(b[..j], b[j + 1..], fp);
      OfConcat(b[..j], [b[j]] + b[j + 1..], fp);
      OfConcat([b[j]], b[j + 1..], fp);
      OfConcat(a[..|a| - 1], [b[j]], fp);
    }
  }

  lemma {:induction false} CountOfConcat(a: seq<Occurrence>, b: seq<Occurrence>)
    ensures CountOf(a + b) == CountOf(a) + CountOf(b)
    decreases |b|
  {
    if b == [] {
      assert a + b == a;
    } else {
      CountOfConcat(a, b[..|b| - 1]);
      assert (a + b)[..|a + b| - 1] == a + b[..|b| - 1];
    }
  }

  lemma {:induction false} CountOfPermuted(a: seq<Occurrence>, b: seq<Occurrence>)
    requires multiset(a) == multiset(b)
    ensures CountOf(a) == CountOf(b)
    decreases |a|
  {
    if a == [] {
      assert |multiset(b)| == 0;
    } else {
      var j := LastElsewhere(a, b);
      CountOfPermuted(a[..|a| - 1], b[..j] + b[j + 1..]);
      CountOfConcat(b[..j], b[j + 1..]);
      CountOfConcat(b[..j], [b[j]] + b[j + 1..]);
      CountOfConcat([b[j]], b[j + 1..]);
      CountOfConcat(a[..|a| - 1], [b[j]]);
    }
  }

  lemma MembersPermuted<T>(a: seq<T>, b: seq<T>)
    requires multiset(a) == multiset(b)
    ensures forall x :: x in a <==> x in b
  {
    forall x ensures x in a <==> x in b {
      assert x in a <==> x in multiset(a);
      assert x in b <==> x in multiset(b);
    }
  }

  ghost predicate SameNumbers(g: RepeatGroup, h: RepeatGroup) {
    && g.fingerprint == h.fingerprint && g.id == h.id
    && g.attemptCount == h.attemptCount && g.occurrenceCount == h.occurrenceCount
    && g.firstAttempt == h.firstAttempt && g.lastAttempt == h.lastAttempt
    && multiset(g.attempts) == multiset(h.attempts)
  }

  lemma AggregatePermuted(a: seq<Input>, b: seq<Input>, g: RepeatGroup, h: RepeatGroup)
    requires multiset(a) == multiset(b) && g.fingerprint == h.fingerprint
    requires Aggregates(a, g) && Aggregates(b, h)
    ensures SameNumbers(g, h)
  {
    var s, t := Of(a, g.fingerprint), Of(b, g.fingerprint);
    OfPermuted(a, b, g.fingerprint);
    CountOfPermuted(s, t);
    MembersPermuted(s, t);
    assert Attempts(s) == Attempts(t);
    SortedIsPermutation(s);
    SortedIsPermutation(t);
  }

  /** Two permutations of one input give the same groups, in the same order, with the
      same counts, first and last attempts, and occurrences. */
  lemma SummaryIgnoresInputOrder(a: seq<Input>, b: seq<Input>, groups: seq<RepeatGroup>, groups': seq<RepeatGroup>)
    requires multiset(a) == multiset(b) && Summary(a, groups) && Summary(b, groups')
    ensures |groups| == |groups'|
    ensures forall k :: 0 <= k < |groups| ==> SameNumbers(groups[k], groups'[k])
  {
    KeyOrderIs(Keys(a));
    KeyOrderIs(Keys(b));
    MembersPermuted(a, b);
    forall x ensures x in Keys(a) <==> x in Keys(b) {
      KeyHasInput(a, b, x);
      KeyHasInput(b, a, x);
    }
    AscendingUnique(KeyOrder(Keys(a)), KeyOrder(Keys(b)));
    forall k | 0 <= k < |groups| ensures SameNumbers(groups[k], groups'[k]) {
      AggregatePermuted(a, b, groups[k], groups'[k]);
    }
  }

  lemma KeyHasInput(a: seq<Input>, b: seq<Input>, fp: Text)
    requires forall x :: x in a ==> x in b
    ensures fp in Keys(a) ==> fp in Keys(b)
  {
    if fp in Keys(a) {
      var i :| 0 <= i < |a| && a[i].fingerprint == fp;
      assert a[i] in b;
      var j :| 0 <= j < |b| && b[j] == a[i];
      assert Keys(b)[j] == fp;
    }
  }

  // ----- the members of a group, one by one -----

  /** The occurrences of a fingerprint are those of the inputs that carry it, in input order. */
  lemma {:induction false} OccurrencesAt(inputs: seq<Input>, fp: Text)
    ensures var ps := PositionsOf(Keys(inputs), fp);
      && |Of(inputs, fp)| == |ps|
      && forall k :: 0 <= k < |ps| ==> ps[k] < |inputs| && Of(inputs, fp)[k] == inputs[ps[k]].occurrence
  {
    if inputs != [] {
      OccurrencesAt(inputs[..|inputs| - 1], fp);
      assert Keys(inputs)[..|inputs| - 1] == Keys(inputs[..|inputs| - 1]);
    }
  }

  /** A group is labelled by the first input of its fingerprint. */
  lemma {:induction false} LabelsOfFirst(inputs: seq<Input>, g: RepeatGroup, i: nat)
    requires Aggregates(inputs, g) && i < |inputs| && inputs[i].fingerprint == g.fingerprint
    requires forall j :: 0 <= j < i ==> inputs[j].fingerprint != g.fingerprint
    ensures g.labels == inputs[i].labels
  {
    FirstLabelsAre(inputs, g.fingerprint, i);
  }

  lemma {:induction false} FirstLabelsAre(inputs: seq<Input>, fp: Text, i: nat)
    requires i < |inputs| && inputs[i].fingerprint == fp && fp in Keys(inputs)
    requires forall j :: 0 <= j < i ==> inputs[j].fingerprint != fp
    ensures FirstLabels(inputs, fp) == inputs[i].labels
  {
    if i > 0 {
      assert Keys(inputs[1..])[i - 1] == fp;
      FirstLabelsAre(inputs[1..], fp, i - 1);
    }
  }

  // ----- the sort is stable -----

  predicate SameKey(a: Occurrence, b: Occurrence) {
    a.attempt == b.attempt && a.target == b.target && a.groupId == b.groupId
  }

  /** The occurrences with the attempt, target and group id of another, in their order. */
  function Alike(s: seq<Occurrence>, o: Occurrence): seq<Occurrence> {
    if s == [] then [] else (if SameKey(s[0], o) then [s[0]] else []) + Alike(s[1..], o)
  }

  lemma {:induction false} AlikeAppend(s: seq<Occurrence>, p: Occurrence, o: Occurrence)
    ensures Alike(s + [p], o) == Alike(s, o) + if SameKey(p, o) then [p] else []
  {
    if s == [] {
      assert [p][1..] == [];
    } else {
      assert (s + [p])[1..] == s[1..] + [p];
      AlikeAppend(s[1..], p, o);
    }
  }

  lemma NoneAlike(s: seq<Occurrence>, o: Occurrence)
    requires forall i :: 0 <= i < |s| ==> !SameKey(s[i], o)
    ensures Alike(s, o) == []
  {
  }

  lemma {:induction false} PlacedAfterAlike(s: seq<Occurrence>, p: Occurrence, o: Occurrence)
    requires InOrder(s)
    ensures Alike(Placed(s, p), o) == Alike(s, o) + if SameKey(p, o) then [p] else []
  {
    if s == [] {
      assert [p] + s == [] + [p];
      AlikeAppend([], p, o);
    } else if Before(p, s[0]) {
      assert ([p] + s)[1..] == s;
      if SameKey(p, o) {
        BeforeIsStrict(s[0], s[0]);
        forall i | 0 <= i < |s| ensures !SameKey(s[i], o) {
          AfterIsOther(p, s[0], s[i]);
        }
        NoneAlike(s, o);
      }
    } else {
      assert ([s[0]] + Placed(s[1..], p))[1..] == Placed(s[1..], p);
      PlacedAfterAlike(s[1..], p, o);
    }
  }

  lemma AfterIsOther(p: Occurrence, a: Occurrence, b: Occurrence)
    requires Before(p, a) && !Before(b, a)
    ensures !SameKey(b, p)
  {
    LessTrichotomy(p.target, p.target);
    LessTrichotomy(p.groupId, p.groupId);
  }

  /** Occurrences the order does not tell apart stay in input order. */
  lemma {:induction false} SortedIsStable(s: seq<Occurrence>, o: Occurrence)
    ensures Alike(Sorted(s), o) == Alike(s, o)
  {
    if s != [] {
      var before, last := s[..|s| - 1], s[|s| - 1];
      SortedIsStable(before, o);
      SortedIsPermutation(before);
      PlacedAfterAlike(Sorted(before), last, o);
      AlikeAppend(before, last, o);
      assert s == before + [last];
    }
  }
}
