/** Promotion of tool detections to findings of a crash pack, after gdb results have
    enriched the crashes already in it. */
module Promotion {
  import opened Words
  import opened Grouping
  import opened Separators
  import opened IssueGroups

  datatype Detection = Detection(
    cls: Text, summary: Text, line: Option<u64>,
    callFrame: Option<Text>, allocFrame: Option<Text>, freeFrame: Option<Text>)

  /** What a readable gdb report yields: its crash frames, the section promotion writes
      about it, and the command that shows it. */
  datatype GdbReport = GdbReport(frames: seq<Value>, section: Value, command: Option<Text>)

  const NO_REPORT: GdbReport := GdbReport([], Null, None)

  /** An escalation result, with the detections its report or output yields. */
  datatype Result = Result(
    tool: Text, id: Text, findingId: Text, success: bool, confirmed: bool, detected: seq<Text>,
    detections: seq<Detection>, report: GdbReport)

  /** Library text functions promotion relies on, whatever they are. */
  datatype Texts = Texts(trim: Text -> Text, debugLine: Option<u64> -> Text, debugFrame: Option<Text> -> Text)

  function DetectionKey(x: Texts, tool: Text, d: Detection): Text {
    tool + SEP + d.cls + SEP + d.summary + SEP + x.debugLine(d.line) + SEP
    + x.debugFrame(d.callFrame) + SEP + x.debugFrame(d.allocFrame) + SEP + x.debugFrame(d.freeFrame)
  }

  function OptionalText(t: Option<Text>): Value {
    if t.Some? then Str(t.value) else Null
  }

  function ToolSection(x: Texts, res: Result, d: Detection): map<string, Value> {
    map["name" := Str(res.tool), "result_id" := Str(res.id), "finding_id" := Str(res.findingId),
        "summary" := Str(x.trim(d.summary)), "line" := if d.line.Some? then Number(d.line.value) else Null,
        "call_frame" := OptionalText(d.callFrame), "alloc_frame" := OptionalText(d.allocFrame),
        "free_frame" := OptionalText(d.freeFrame)]
  }

  function PromotedId(res: Result, d: Detection, index: nat): Text {
    var dash := [45];
    Ascii("F-") + res.tool + dash + d.cls + dash + res.id + dash + Decimal(index + 1)
  }

  function ToolBackedFinding(x: Texts, res: Result, d: Detection, index: nat): Value {
    Object(map[
      "schema_version" := Str(Ascii("1.0")),
      "id" := Str(PromotedId(res, d, index)),
      "origin" := Str(res.tool), "class" := Str(d.cls), "confidence" := Str(Ascii("tool_confirmed")),
      "message" := Str(x.trim(d.summary)),
      "evidence" := Object(map["api" := Str(res.tool), "tool" := Object(ToolSection(x, res, d))])])
  }

  // ----- what promotion reads back from a finding -----

  /** The class field, or the kind field if there is no class; then only if it is a string. */
  function FindingClass(f: Value): Option<Text> {
    match OrElse<Value>(Get(f, ["class"]), Get(f, ["kind"]))
    case Some(Str(t)) => Some(t)
    case _ => None
  }

  function LineOf(f: Value): Option<u64> {
    match Get(f, ["evidence", "tool", "line"])
    case Some(Number(n)) => if 0 <= n < TWO64 then Some(n) else None
    case _ => None
  }

  function ReadDetection(f: Value): Option<Detection> {
    match FindingClass(f)
    case None => None
    case Some(cls) =>
      Some(Detection(cls, GetOr(StringAt(f, ["message"]), Ascii("tool-backed finding")), LineOf(f),
                     StringAt(f, ["evidence", "tool", "call_frame"]),
                     StringAt(f, ["evidence", "tool", "alloc_frame"]),
                     StringAt(f, ["evidence", "tool", "free_frame"])))
  }

  function ReadKey(x: Texts, f: Value): Option<Text> {
    var tool, d := StringAt(f, ["evidence", "tool", "name"]), ReadDetection(f);
    if tool.Some? && d.Some? then Some(DetectionKey(x, tool.value, d.value)) else None
  }

  function ExistingKeys(x: Texts, fs: seq<Value>): set<Text> {
    set f | f in fs && ReadKey(x, f).Some? :: ReadKey(x, f).value
  }

  predicate Untied(res: Result) {
    res.findingId == Ascii("clean-run") || res.findingId == Ascii("tool-only-fallback")
  }

  predicate Confirms(f: Value, res: Result, d: Detection) {
    StringAt(f, ["id"]) == Some(res.findingId) && FindingClass(f) == Some(d.cls)
  }

  predicate ConfirmsExisting(fs: seq<Value>, res: Result, d: Detection) {
    !Untied(res) && exists f :: f in fs && Confirms(f, res, d)
  }

  // ----- promotion -----

  datatype Item = Item(result: Result, index: nat, detection: Detection)

  function ItemKey(x: Texts, it: Item): Text {
    DetectionKey(x, it.result.tool, it.detection)
  }

  function ItemFinding(x: Texts, it: Item): Value {
    ToolBackedFinding(x, it.result, it.detection, it.index)
  }

  predicate Eligible(res: Result) {
    res.tool != Ascii("gdb") && res.success && res.confirmed && res.detected != []
  }

  function ItemsOf(res: Result): seq<Item> {
    if Eligible(res) then seq(|res.detections|, i requires 0 <= i < |res.detections| => Item(res, i, res.detections[i]))
    else []
  }

  function AllItems(results: seq<Result>): seq<Item> {
    if results == [] then [] else AllItems(results[..|results| - 1]) + ItemsOf(results[|results| - 1])
  }

  datatype Pack = Pack(findings: seq<Value>, known: set<Text>)

  function PromoteItem(x: Texts, p: Pack, it: Item): Pack {
    if ConfirmsExisting(p.findings, it.result, it.detection) || ItemKey(x, it) in p.known then p
    else Pack(p.findings + [ItemFinding(x, it)], p.known + {ItemKey(x, it)})
  }

  function PromoteItems(x: Texts, p: Pack, items: seq<Item>): Pack {
    if items == [] then p else PromoteItem(x, PromoteItems(x, p, items[..|items| - 1]), items[|items| - 1])
  }

  function Loaded(x: Texts, fs: seq<Value>): Pack {
    Pack(fs, ExistingKeys(x, fs))
  }

  function Promoted(x: Texts, fs: seq<Value>, items: seq<Item>): seq<Value> {
    PromoteItems(x, Loaded(x, fs), items).findings
  }

  method ConfirmsExistingFinding(fs: seq<Value>, res: Result, d: Detection) returns (b: bool)
    ensures b <==> ConfirmsExisting(fs, res, d)
  {
    if res.findingId == Ascii("clean-run") || res.findingId == Ascii("tool-only-fallback") {
      return false;
    }
    for i := 0 to |fs|
      invariant forall f :: f in fs[..i] ==> !Confirms(f, res, d)
    {
      if Confirms(fs[i], res, d) {
        return true;
      }
      assert fs[..i + 1] == fs[..i] + [fs[i]];
    }
    assert fs[..|fs|] == fs;
    return false;
  }

  method PromoteResult(x: Texts, p: Pack, res: Result) returns (p': Pack)
    requires Eligible(res)
    ensures p' == PromoteItems(x, p, ItemsOf(res))
  {
    p' := p;
    ghost var items := ItemsOf(res);
    for i := 0 to |res.detections|
      invariant p' == PromoteItems(x, p, items[..i])
    {
      assert items[..i + 1][..i] == items[..i];
      var d := res.detections[i];
      var confirms := ConfirmsExistingFinding(p'.findings, res, d);
      if confirms {
        continue;
      }
      var key := DetectionKey(x, res.tool, d);
      if key in p'.known {
        continue;
      }
      p' := Pack(p'.findings + [ToolBackedFinding(x, res, d, i)], p'.known + {key});
    }
    assert items[..|res.detections|] == items;
  }

  lemma ItemsStep(x: Texts, p: Pack, results: seq<Result>, i: nat)
    requires i < |results|
    ensures PromoteItems(x, p, AllItems(results[..i + 1])) ==
      PromoteItems(x, PromoteItems(x, p, AllItems(results[..i])), ItemsOf(results[i]))
  {
    assert results[..i + 1][..i] == results[..i];
    PromoteConcat(x, p, AllItems(results[..i]), ItemsOf(results[i]));
  }

  lemma {:induction false} PromoteConcat(x: Texts, p: Pack, a: seq<Item>, b: seq<Item>)
    ensures PromoteItems(x, p, a + b) == PromoteItems(x, PromoteItems(x, p, a), b)
    decreases |b|
  {
    if b == [] {
      assert a + b == a;
    } else {
      PromoteConcat(x, p, a, b[..|b| - 1]);
      assert (a + b)[..|a + b| - 1] == a + b[..|b| - 1];
    }
  }

  /** Existing findings stay in place as a prefix. */
  lemma {:induction false} PromotionAppends(x: Texts, p: Pack, items: seq<Item>)
    ensures p.findings <= PromoteItems(x, p, items).findings && p.known <= PromoteItems(x, p, items).known
  {
    if items != [] {
      PromotionAppends(x, p, items[..|items| - 1]);
    }
  }

  // ----- what promotion reads -----

  predicate PromotionPath(path: seq<string>) {
    || path == ["id"] || path == ["class"] || path == ["kind"] || path == ["message"]
    || path == ["evidence", "tool", "name"] || path == ["evidence", "tool", "line"]
    || path == ["evidence", "tool", "call_frame"] || path == ["evidence", "tool", "alloc_frame"]
    || path == ["evidence", "tool", "free_frame"]
  }

  ghost predicate SamePromotionReads(f: Value, g: Value) {
    forall path :: PromotionPath(path) ==> Get(g, path) == Get(f, path)
  }

  lemma SamePromotionString(f: Value, g: Value, path: seq<string>)
    requires SamePromotionReads(f, g) && PromotionPath(path)
    ensures StringAt(g, path) == StringAt(f, path)
  {
  }

  /** Findings that promotion cannot tell apart: the paths it reads agree. */
  ghost predicate Alike(fs: seq<Value>, gs: seq<Value>) {
    |fs| == |gs| && forall i :: 0 <= i < |fs| ==> SamePromotionReads(fs[i], gs[i])
  }

  lemma SameClassAndLine(f: Value, g: Value)
    requires SamePromotionReads(f, g)
    ensures FindingClass(g) == FindingClass(f) && LineOf(g) == LineOf(f)
  {
    assert PromotionPath(["evidence", "tool", "line"]) && PromotionPath(["class"]) && PromotionPath(["kind"]);
  }

  lemma SameDetection(f: Value, g: Value)
    requires SamePromotionReads(f, g)
    ensures ReadDetection(g) == ReadDetection(f)
  {
    SameClassAndLine(f, g);
    SamePromotionString(f, g, ["message"]);
    SamePromotionString(f, g, ["evidence", "tool", "call_frame"]);
    SamePromotionString(f, g, ["evidence", "tool", "alloc_frame"]);
    SamePromotionString(f, g, ["evidence", "tool", "free_frame"]);
  }

  lemma SameKey(x: Texts, f: Value, g: Value)
    requires SamePromotionReads(f, g)
    ensures ReadKey(x, g) == ReadKey(x, f)
    ensures forall res, d :: Confirms(g, res, d) == Confirms(f, res, d)
  {
    SameDetection(f, g);
    SameClassAndLine(f, g);
    SamePromotionString(f, g, ["id"]);
    SamePromotionString(f, g, ["evidence", "tool", "name"]);
  }

  lemma AlikeKeys(x: Texts, fs: seq<Value>, gs: seq<Value>)
    requires Alike(fs, gs)
    ensures ExistingKeys(x, fs) == ExistingKeys(x, gs)
    ensures forall res, d :: ConfirmsExisting(fs, res, d) == ConfirmsExisting(gs, res, d)
  {
    forall i | 0 <= i < |fs|
      ensures ReadKey(x, gs[i]) == ReadKey(x, fs[i])
      ensures forall res, d :: Confirms(gs[i], res, d) == Confirms(fs[i], res, d)
    {
      SameKey(x, fs[i], gs[i]);
    }
    forall k ensures k in ExistingKeys(x, fs) <==> k in ExistingKeys(x, gs) {
      if k in ExistingKeys(x, fs) {
        var i :| 0 <= i < |fs| && ReadKey(x, fs[i]) == Some(k);
        assert gs[i] in gs;
      }
      if k in ExistingKeys(x, gs) {
        var i :| 0 <= i < |gs| && ReadKey(x, gs[i]) == Some(k);
        assert fs[i] in fs;
      }
    }
    forall res, d ensures ConfirmsExisting(fs, res, d) == ConfirmsExisting(gs, res, d) {
      if ConfirmsExisting(fs, res, d) {
        var i :| 0 <= i < |fs| && Confirms(fs[i], res, d);
        assert gs[i] in gs;
      }
      if ConfirmsExisting(gs, res, d) {
        var i :| 0 <= i < |gs| && Confirms(gs[i], res, d);
        assert fs[i] in fs;
      }
    }
  }

  // ----- enrichment of crashes by gdb -----

  predicate Reports(res: Result) {
    res.tool == Ascii("gdb") && res.success && res.confirmed && res.report.frames != []
  }

  /** The unclassified crash a gdb result is about. */
  predicate Concerns(res: Result, f: Value) {
    FindingClass(f) == Some(Ascii("unclassified_crash")) && StringAt(f, ["id"]) == Some(res.findingId)
  }

  function FieldsOf(v: Value): map<string, Value> {
    if v.Object? then v.fields else map[]
  }

  /** Sets a key of the object at a path, making objects along the path where there are none. */
  function WithAt(v: Value, path: seq<string>, key: string, x: Value): Value
    decreases |path|
  {
    var fields := FieldsOf(v);
    if path == [] then Object(fields[key := x])
    else
      var child := if path[0] in fields then fields[path[0]] else Object(map[]);
      Object(fields[path[0] := WithAt(child, path[1..], key, x)])
  }

  function WithCommand(f: Value, command: Option<Text>): Value {
    match Get(f, ["next_commands"])
    case Some(Array(commands)) =>
      if f.Object? && command.Some? && Str(command.value) !in commands then
        Object(f.fields["next_commands" := Array(commands + [Str(command.value)])])
      else f
    case _ => f
  }

  function Enriched(f: Value, res: Result): Value {
    var stacked := WithAt(f, ["evidence", "stacks"], "crash", Array(res.report.frames));
    WithCommand(WithAt(stacked, ["evidence", "tool"], "gdb", res.report.section), res.report.command)
  }

  function EnrichedIf(f: Value, res: Result): Value {
    if Reports(res) && Concerns(res, f) then Enriched(f, res) else f
  }

  function EnrichedBy(f: Value, results: seq<Result>): Value {
    if results == [] then f else EnrichedIf(EnrichedBy(f, results[..|results| - 1]), results[|results| - 1])
  }

  function EnrichedAll(fs: seq<Value>, results: seq<Result>): seq<Value> {
    seq(|fs|, i requires 0 <= i < |fs| => EnrichedBy(fs[i], results))
  }

  lemma WithAtTwo(v: Value, a: string, b: string, key: string, x: Value)
    ensures var outer := if a in FieldsOf(v) then v.fields[a] else Object(map[]);
      var inner := if b in FieldsOf(outer) then outer.fields[b] else Object(map[]);
      WithAt(v, [a, b], key, x) ==
        Object(FieldsOf(v)[a := Object(FieldsOf(outer)[b := Object(FieldsOf(inner)[key := x])])])
  {
    var outer := if a in FieldsOf(v) then v.fields[a] else Object(map[]);
    var inner := if b in FieldsOf(outer) then outer.fields[b] else Object(map[]);
    assert [a, b][1..] == [b] && [b][1..] == [];
    assert WithAt(inner, [], key, x) == Object(FieldsOf(inner)[key := x]);
    assert WithAt(outer, [b], key, x) == Object(FieldsOf(outer)[b := WithAt(inner, [], key, x)]);
  }

  /** Setting a key two levels down leaves every other field, and every other key there. */
  lemma WithAtKeeps(v: Value, a: string, b: string, key: string, x: Value, c: string, d: string)
    requires v.Object? && (c != b || d != key)
    ensures WithAt(v, [a, b], key, x).Object?
    ensures Get(WithAt(v, [a, b], key, x), [a, c, d]) == Get(v, [a, c, d])
    ensures forall other :: other != a ==> Field(WithAt(v, [a, b], key, x), other) == Field(v, other)
  {
    WithAtTwo(v, a, b, key, x);
    GetThree(v, a, c, d);
    GetThree(WithAt(v, [a, b], key, x), a, c, d);
  }

  lemma EnrichedKeepsTool(f: Value, res: Result, d: string)
    requires f.Object? && d != "gdb"
    ensures Get(Enriched(f, res), ["evidence", "tool", d]) == Get(f, ["evidence", "tool", d])
    ensures forall other :: other != "evidence" && other != "next_commands" ==>
      Get(Enriched(f, res), [other]) == Get(f, [other])
    ensures Enriched(f, res).Object?
  {
    var stacked := WithAt(f, ["evidence", "stacks"], "crash", Array(res.report.frames));
    var tooled := WithAt(stacked, ["evidence", "tool"], "gdb", res.report.section);
    WithAtKeeps(f, "evidence", "stacks", "crash", Array(res.report.frames), "tool", d);
    WithAtKeeps(stacked, "evidence", "tool", "gdb", res.report.section, "tool", d);
    GetThree(tooled, "evidence", "tool", d);
    GetThree(Enriched(f, res), "evidence", "tool", d);
    forall other: string | other != "evidence" && other != "next_commands"
      ensures Get(Enriched(f, res), [other]) == Get(f, [other])
    {
      GetField(f, other, []);
      GetField(Enriched(f, res), other, []);
    }
  }

  lemma EnrichedKeepsReads(f: Value, res: Result)
    requires f.Object?
    ensures SamePromotionReads(f, Enriched(f, res))
  {
    EnrichedKeepsTool(f, res, "name");
    EnrichedKeepsTool(f, res, "line");
    EnrichedKeepsTool(f, res, "call_frame");
    EnrichedKeepsTool(f, res, "alloc_frame");
    EnrichedKeepsTool(f, res, "free_frame");
  }

  lemma ClassedIsObject(f: Value)
    requires FindingClass(f).Some?
    ensures f.Object?
  {
    GetField(f, "class", []);
    GetField(f, "kind", []);
  }

  /** Enrichment touches nothing promotion reads. */
  lemma EnrichmentKeepsReads(f: Value, res: Result)
    ensures SamePromotionReads(f, EnrichedIf(f, res))
    ensures forall r :: Concerns(r, EnrichedIf(f, res)) == Concerns(r, f)
  {
    if Reports(res) && Concerns(res, f) {
      ClassedIsObject(f);
      EnrichedKeepsReads(f, res);
    }
    SameClassAndLine(f, EnrichedIf(f, res));
    SamePromotionString(f, EnrichedIf(f, res), ["id"]);
  }

  lemma {:induction false} EnrichedByKeepsReads(f: Value, results: seq<Result>)
    ensures SamePromotionReads(f, EnrichedBy(f, results))
    ensures forall r :: Concerns(r, EnrichedBy(f, results)) == Concerns(r, f)
  {
    if results != [] {
      EnrichedByKeepsReads(f, results[..|results| - 1]);
      EnrichmentKeepsReads(EnrichedBy(f, results[..|results| - 1]), results[|results| - 1]);
    }
  }

  lemma EnrichedAllAlike(x: Texts, fs: seq<Value>, results: seq<Result>)
    ensures Alike(fs, EnrichedAll(fs, results))
    ensures ExistingKeys(x, EnrichedAll(fs, results)) == ExistingKeys(x, fs)
  {
    forall i | 0 <= i < |fs| ensures SamePromotionReads(fs[i], EnrichedAll(fs, results)[i]) {
      EnrichedByKeepsReads(fs[i], results);
    }
    AlikeKeys(x, fs, EnrichedAll(fs, results));
  }

  /** Some gdb report concerns some finding. */
  ghost predicate SomeEnriched(fs: seq<Value>, results: seq<Result>) {
    exists i, j :: 0 <= i < |fs| && 0 <= j < |results| && Reports(results[j]) && Concerns(results[j], fs[i])
  }

  method EnrichOne(findings: seq<Value>, res: Result) returns (fs: seq<Value>, changed: bool)
    requires Reports(res)
    ensures fs == seq(|findings|, i requires 0 <= i < |findings| => EnrichedIf(findings[i], res))
    ensures changed <==> exists i :: 0 <= i < |findings| && Concerns(res, findings[i])
  {
    fs, changed := findings, false;
    for i := 0 to |findings|
      invariant |fs| == |findings| && fs[i..] == findings[i..]
      invariant forall k :: 0 <= k < i ==> fs[k] == EnrichedIf(findings[k], res)
      invariant changed <==> exists k :: 0 <= k < i && Concerns(res, findings[k])
    {
      assert fs[i] == fs[i..][0] == findings[i..][0];
      assert fs[i + 1..] == fs[i..][1..] == findings[i..][1..];
      if Concerns(res, fs[i]) {
        fs := fs[i := Enriched(fs[i], res)];
        changed := true;
      }
    }
  }

  method EnrichGdbCrashFindings(findings: seq<Value>, results: seq<Result>) returns (fs: seq<Value>, changed: bool)
    ensures fs == EnrichedAll(findings, results)
    ensures changed <==> SomeEnriched(findings, results)
  {
    fs, changed := findings, false;
    for n := 0 to |results|
      invariant fs == EnrichedAll(findings, results[..n])
      invariant changed <==> SomeEnriched(findings, results[..n])
    {
      assert results[..n + 1][..n] == results[..n];
      EnrichedAllConcerns(findings, results[..n]);
      if results[n].tool == Ascii("gdb") && results[n].success && results[n].confirmed && results[n].report.frames != [] {
        var touched;
        fs, touched := EnrichOne(fs, results[n]);
        changed := changed || touched;
      }
    }
    assert results[..|results|] == results;
  }

  lemma EnrichedAllConcerns(fs: seq<Value>, results: seq<Result>)
    ensures forall r, i :: 0 <= i < |fs| ==> Concerns(r, EnrichedAll(fs, results)[i]) == Concerns(r, fs[i])
  {
    forall i | 0 <= i < |fs| ensures forall r :: Concerns(r, EnrichedAll(fs, results)[i]) == Concerns(r, fs[i]) {
      EnrichedByKeepsReads(fs[i], results);
    }
  }

  /** The known keys are those of the findings before enrichment, which leaves them alone. */
  method PromoteToolFindings(x: Texts, findings: seq<Value>, results: seq<Result>)
    returns (promoted: seq<Value>, changed: bool)
    ensures promoted == Promoted(x, EnrichedAll(findings, results), AllItems(results))
    ensures changed <==> SomeEnriched(findings, results) || |promoted| > |findings|
  {
    var known := ExistingKeys(x, findings);
    var fs, enriched := EnrichGdbCrashFindings(findings, results);
    EnrichedAllAlike(x, findings, results);
    var p := Pack(fs, known);
    for i := 0 to |results|
      invariant p == PromoteItems(x, Loaded(x, fs), AllItems(results[..i]))
    {
      ItemsStep(x, Loaded(x, fs), results, i);
      if results[i].tool != Ascii("gdb") && results[i].success && results[i].confirmed && results[i].detected != [] {
        p := PromoteResult(x, p, results[i]);
      }
    }
    assert results[..|results|] == results;
    promoted := p.findings;
    changed := enriched || |promoted| > |fs|;
  }
}
