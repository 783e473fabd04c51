/** What the enrichment of crashes by gdb writes into a finding, and what it leaves. */
module Enrichment {
  import opened Words
  import opened Grouping
  import opened IssueGroups
  import opened Promotion

  /** The texts "gdb" and "unclassified_crash". */
  const GDB: Text := [103, 100, 98]
  const CRASH: Text := [117, 110, 99, 108, 97, 115, 115, 105, 102, 105, 101, 100, 95, 99, 114, 97, 115, 104]

  /** A confirmed gdb result with crash frames, for the unclassified crash it names. */
  predicate Hits(res: Result, f: Value) {
    && res.tool == GDB && res.success && res.confirmed && res.report.frames != []
    && (Get(f, ["class"]) == Some(Str(CRASH)) || (Get(f, ["class"]).None? && Get(f, ["kind"]) == Some(Str(CRASH))))
    && Get(f, ["id"]) == Some(Str(res.findingId))
  }

  lemma HitsIs(res: Result, f: Value)
    ensures Hits(res, f) <==> Promotion.Reports(res) && Concerns(res, f)
  {
    assert Ascii("gdb") == GDB;
    assert Ascii("unclassified_crash") == CRASH;
  }

  lemma HitIsStable(f: Value, results: seq<Result>)
    ensures forall res :: Hits(res, EnrichedBy(f, results)) <==> Hits(res, f)
  {
    EnrichedByKeepsReads(f, results);
    forall res ensures Hits(res, EnrichedBy(f, results)) <==> Hits(res, f) {
      HitsIs(res, f);
      HitsIs(res, EnrichedBy(f, results));
    }
  }

  lemma HitIsObject(res: Result, f: Value)
    requires Hits(res, f)
    ensures f.Object?
  {
    GetField(f, "id", []);
  }

  // ----- one result -----

  lemma StoredAt(v: Value, a: string, b: string, key: string, x: Value)
    ensures Get(WithAt(v, [a, b], key, x), [a, b, key]) == Some(x) && WithAt(v, [a, b], key, x).Object?
  {
    WithAtTwo(v, a, b, key, x);
    GetThree(WithAt(v, [a, b], key, x), a, b, key);
  }

  lemma CommandsApart(f: Value, command: Option<Text>, a: string, b: string, c: string)
    requires a != "next_commands"
    ensures Get(WithCommand(f, command), [a, b, c]) == Get(f, [a, b, c])
    ensures Get(WithCommand(f, command), [a]) == Get(f, [a])
  {
    GetThree(f, a, b, c);
    GetThree(WithCommand(f, command), a, b, c);
  }

  /** The frames go to evidence.stacks.crash, the section to evidence.tool.gdb. */
  lemma EnrichedWrites(f: Value, res: Result)
    requires f.Object?
    ensures Get(Enriched(f, res), ["evidence", "stacks", "crash"]) == Some(Array(res.report.frames))
    ensures Get(Enriched(f, res), ["evidence", "tool", "gdb"]) == Some(res.report.section)
  {
    var stacked := WithAt(f, ["evidence", "stacks"], "crash", Array(res.report.frames));
    var tooled := WithAt(stacked, ["evidence", "tool"], "gdb", res.report.section);
    StoredAt(f, "evidence", "stacks", "crash", Array(res.report.frames));
    StoredAt(stacked, "evidence", "tool", "gdb", res.report.section);
    WithAtKeeps(stacked, "evidence", "tool", "gdb", res.report.section, "stacks", "crash");
    CommandsApart(tooled, res.report.command, "evidence", "stacks", "crash");
    CommandsApart(tooled, res.report.command, "evidence", "tool", "gdb");
  }

  lemma WithAtLeaves(v: Value, b: string, key: string, x: Value, c: string, d: string, top: string)
    requires v.Object? && (c, d) != (b, key) && top != "evidence"
    ensures var w := WithAt(v, ["evidence", b], key, x);
      && w.Object? && Field(w, top) == Field(v, top)
      && Get(w, ["evidence", c, d]) == Get(v, ["evidence", c, d])
  {
    WithAtKeeps(v, "evidence", b, key, x, c, d);
  }

  lemma EnrichedLeaves(f: Value, res: Result, c: string, d: string, top: string)
    requires f.Object? && (c, d) != ("stacks", "crash") && (c, d) != ("tool", "gdb")
    requires top != "evidence" && top != "next_commands"
    ensures Get(Enriched(f, res), ["evidence", c, d]) == Get(f, ["evidence", c, d])
    ensures Get(Enriched(f, res), [top]) == Get(f, [top])
  {
    var stacked := WithAt(f, ["evidence", "stacks"], "crash", Array(res.report.frames));
    var tooled := WithAt(stacked, ["evidence", "tool"], "gdb", res.report.section);
    WithAtLeaves(f, "stacks", "crash", Array(res.report.frames), c, d, top);
    WithAtLeaves(stacked, "tool", "gdb", res.report.section, c, d, top);
    CommandsApart(tooled, res.report.command, "evidence", c, d);
    CommandsApart(tooled, res.report.command, top, c, d);
    GetField(f, top, []);
    GetField(tooled, top, []);
  }

  /** The list of next commands, if the finding has one. */
  function Commands(f: Value): Option<seq<Value>> {
    match Get(f, ["next_commands"])
    case Some(Array(items)) => Some(items)
    case _ => None
  }

  /** The list after one more command: at the end, unless it is there already. */
  lemma EnrichedCommand(f: Value, res: Result)
    requires f.Object?
    ensures var before, after := Commands(f), Commands(Enriched(f, res));
      && (before.None? ==> Get(Enriched(f, res), ["next_commands"]) == Get(f, ["next_commands"]))
      && (before.Some? ==>
            after == if res.report.command.None? || Str(res.report.command.value) in before.value then before
                     else Some(before.value + [Str(res.report.command.value)]))
  {
    var stacked := WithAt(f, ["evidence", "stacks"], "crash", Array(res.report.frames));
    var tooled := WithAt(stacked, ["evidence", "tool"], "gdb", res.report.section);
    WithAtKeeps(f, "evidence", "stacks", "crash", Array(res.report.frames), "tool", "name");
    WithAtKeeps(stacked, "evidence", "tool", "gdb", res.report.section, "tool", "name");
    GetField(f, "next_commands", []);
    GetField(tooled, "next_commands", []);
    GetField(Enriched(f, res), "next_commands", []);
  }

  // ----- all results -----

  /** Among the results, the last that hits the finding. */
  predicate LastHit(f: Value, results: seq<Result>, k: nat) {
    k < |results| && Hits(results[k], f) && forall j :: k < j < |results| ==> !Hits(results[j], f)
  }

  lemma EnrichedIfHit(g: Value, res: Result)
    ensures EnrichedIf(g, res) == if Hits(res, g) then Enriched(g, res) else g
  {
    HitsIs(res, g);
  }

  lemma EnrichedStep(f: Value, results: seq<Result>)
    requires results != []
    ensures var g, last := EnrichedBy(f, results[..|results| - 1]), results[|results| - 1];
      && EnrichedBy(f, results) == (if Hits(last, f) then Enriched(g, last) else g)
      && (f.Object? ==> g.Object?)
  {
    HitIsStable(f, results[..|results| - 1]);
    EnrichedIfHit(EnrichedBy(f, results[..|results| - 1]), results[|results| - 1]);
    if f.Object? {
      EnrichedStaysObject(f, results[..|results| - 1]);
    }
  }

  lemma {:induction false} EnrichedStaysObject(f: Value, results: seq<Result>)
    requires f.Object?
    ensures EnrichedBy(f, results).Object?
  {
    if results != [] {
      EnrichedStaysObject(f, results[..|results| - 1]);
    }
  }

  /** A finding that no result hits stays as it is. */
  lemma {:induction false} NotHitUnchanged(f: Value, results: seq<Result>)
    requires forall j :: 0 <= j < |results| ==> !Hits(results[j], f)
    ensures EnrichedBy(f, results) == f
  {
    if results != [] {
      NotHitUnchanged(f, results[..|results| - 1]);
      EnrichedStep(f, results);
    }
  }

  /** A finding that is hit ends with the frames and the section of the last result that hits it. */
  lemma {:induction false} LastHitStored(f: Value, results: seq<Result>, k: nat)
    requires LastHit(f, results, k)
    ensures var g := EnrichedBy(f, results);
      && Get(g, ["evidence", "stacks", "crash"]) == Some(Array(results[k].report.frames))
      && Get(g, ["evidence", "tool", "gdb"]) == Some(results[k].report.section)
  {
    var before, last := results[..|results| - 1], results[|results| - 1];
    EnrichedStep(f, results);
    HitIsObject(results[k], f);
    if k == |results| - 1 {
      EnrichedWrites(EnrichedBy(f, before), last);
    } else {
      LastHitStored(f, before, k);
    }
  }

  /** Beside those two entries and the next commands, enrichment changes nothing. */
  lemma {:induction false} RestUnchanged(f: Value, results: seq<Result>, c: string, d: string, top: string)
    requires f.Object? && (c, d) != ("stacks", "crash") && (c, d) != ("tool", "gdb")
    requires top != "evidence" && top != "next_commands"
    ensures var g := EnrichedBy(f, results);
      Get(g, ["evidence", c, d]) == Get(f, ["evidence", c, d]) && Get(g, [top]) == Get(f, [top])
  {
    if results != [] {
      RestUnchanged(f, results[..|results| - 1], c, d, top);
      EnrichedStep(f, results);
      EnrichedLeaves(EnrichedBy(f, results[..|results| - 1]), results[|results| - 1], c, d, top);
    }
  }

  predicate CommandOfHit(f: Value, results: seq<Result>, c: Value, j: int) {
    && 0 <= j < |results| && Hits(results[j], f)
    && results[j].report.command.Some? && c == Str(results[j].report.command.value)
  }

  ghost predicate FromHit(f: Value, results: seq<Result>, c: Value) {
    exists j :: CommandOfHit(f, results, c, j)
  }

  /** The commands grow by exactly those of the hits that are new, each once. */
  ghost predicate CommandsGrown(f: Value, results: seq<Result>, before: seq<Value>, after: seq<Value>) {
    && before <= after
    && (forall c :: FromHit(f, results, c) ==> c in after)
    && (forall i :: |before| <= i < |after| ==>
          after[i] !in after[..i] && FromHit(f, results, after[i]))
  }

  lemma HitsGoOn(f: Value, results: seq<Result>, c: Value)
    requires results != []
    ensures var n := |results| - 1;
      FromHit(f, results, c) <==> FromHit(f, results[..n], c) || CommandOfHit(f, results, c, n)
  {
    var n := |results| - 1;
    if FromHit(f, results, c) && !CommandOfHit(f, results, c, n) {
      var j :| CommandOfHit(f, results, c, j);
      assert CommandOfHit(f, results[..n], c, j);
    }
    if FromHit(f, results[..n], c) {
      var j :| CommandOfHit(f, results[..n], c, j);
      assert CommandOfHit(f, results, c, j);
    }
  }

  lemma CommandsStep(f: Value, results: seq<Result>, before: seq<Value>, mid: seq<Value>, after: seq<Value>)
    requires results != [] && CommandsGrown(f, results[..|results| - 1], before, mid)
    requires var last := results[|results| - 1];
      after == if !Hits(last, f) || last.report.command.None? || Str(last.report.command.value) in mid then mid
               else mid + [Str(last.report.command.value)]
    ensures CommandsGrown(f, results, before, after)
  {
    forall c | FromHit(f, results, c) ensures c in after {
      HitsGoOn(f, results, c);
    }
    forall i | |before| <= i < |after|
      ensures after[i] !in after[..i] && FromHit(f, results, after[i])
    {
      HitsGoOn(f, results, after[i]);
      assert after[..i] == mid[..i];
      if i == |mid| {
        assert CommandOfHit(f, results, after[i], |results| - 1);
      }
    }
  }

  /** The list of next commands, where there is one, keeps the old commands in front and gets
      the command of each hit, none twice; where there is none, none is made. */
  lemma {:induction false} CommandsOfHits(f: Value, results: seq<Result>)
    requires f.Object?
    ensures var g := EnrichedBy(f, results);
      && (Commands(f).None? ==> Get(g, ["next_commands"]) == Get(f, ["next_commands"]))
      && (Commands(f).Some? ==>
            Commands(g).Some? && CommandsGrown(f, results, Commands(f).value, Commands(g).value))
  {
    if results != [] {
      var before, last := results[..|results| - 1], results[|results| - 1];
      var mid := EnrichedBy(f, before);
      CommandsOfHits(f, before);
      EnrichedStep(f, results);
      EnrichedCommand(mid, last);
      if Commands(f).Some? {
        CommandsStep(f, results, Commands(f).value, Commands(mid).value, Commands(EnrichedBy(f, results)).value);
      }
    }
  }
}
