/** Whole findings and the identity read from them, every text and number written out. */
module Samples {
  import opened Words
  import opened Grouping
  import opened IssueGroups

  /** Rules that leave a mark: which one a text went through can be read off the result. */
  const MARKING: Rules := Rules(
    t => t != [] && t != UNKNOWN, t => Some([100] + t), t => [101] + t, t => Some([102] + t), t => Some([103] + t),
    t => if t == [7] then Some(7) else None)

  type Fields = map<string, Value>

  /** The sections of a finding that grouping reads. */
  datatype Sections = Sections(
    top: Fields, evidence: Fields, memory: Fields, tool: Fields, stacks: Fields, provenance: Fields, location: Fields)

  function Evidence(s: Sections): Value {
    Object(s.evidence["memory" := Object(s.memory)]["tool" := Object(s.tool)]["stacks" := Object(s.stacks)])
  }

  function Finding(s: Sections): Value {
    Object(s.top["evidence" := Evidence(s)]["provenance" := Object(s.provenance)]
                ["primaryLocation" := Object(s.location)])
  }

  /** A finding of a tool with every field grouping reads, each a text of its own. */
  const FULL: Sections := Sections(
    map["class" := Str([1]), "kind" := Str([2]), "origin" := Str([3]), "message" := Str([4])],
    map["api" := Str([5]), "alloc_site" := Str([6]), "free_site" := Str([7])],
    map["operation" := Str([8]), "size" := Number(9), "alloc_size" := Number(10), "alloc_offset" := Number(11)],
    map["name" := Str([12]), "summary" := Str([13]), "call_frame" := Str([14]), "alloc_frame" := Str([15]),
        "free_frame" := Str([16])],
    map["call" := Array([Str([17])]), "alloc" := Array([Str([18])]), "free" := Array([Str([19])])],
    map["source_path" := Str([20]), "original_binary_path" := Str([21]), "binary_path" := Str([22])],
    map["uri" := Str([23])])

  /** One without any of the fields that are preferred. */
  const FALLBACK: Sections := Sections(
    map["kind" := Str([2]), "origin" := Str([3]), "message" := Str([4])],
    map["api" := Str([5]), "alloc_site" := Str(UNKNOWN)],
    map["size" := Str([7]), "alloc_size" := Str([8]), "alloc_offset" := Number(-1)],
    map["alloc_frame" := Str([15])],
    map["call" := Array([Null, Str([17]), Str([24])]), "alloc" := Array([Str([18])]), "free" := Array([Str([19])])],
    map["binary_path" := Str([22])],
    map["uri" := Str([23])])

  function At(m: Fields, key: string): Option<Value> {
    if key in m then Some(m[key]) else None
  }

  lemma GetTwo(v: Value, a: string, b: string)
    ensures Get(v, [a, b]) == if Field(v, a).None? then None else Field(Field(v, a).value, b)
  {
    GetField(v, a, [b]);
    assert [a, b] == [a] + [b];
    if Field(v, a).Some? {
      GetField(Field(v, a).value, b, []);
    }
  }

  lemma TopReads(s: Sections, k: string)
    ensures k !in {"evidence", "provenance", "primaryLocation"} ==> Get(Finding(s), [k]) == At(s.top, k)
    ensures Get(Finding(s), ["provenance", k]) == At(s.provenance, k)
    ensures Get(Finding(s), ["primaryLocation", k]) == At(s.location, k)
    ensures k !in {"memory", "tool", "stacks"} ==> Get(Finding(s), ["evidence", k]) == At(s.evidence, k)
  {
    GetField(Finding(s), k, []);
    GetTwo(Finding(s), "provenance", k);
    GetTwo(Finding(s), "primaryLocation", k);
    GetTwo(Finding(s), "evidence", k);
  }

  lemma DeepReads(s: Sections, k: string)
    ensures Get(Finding(s), ["evidence", "memory", k]) == At(s.memory, k)
    ensures Get(Finding(s), ["evidence", "tool", k]) == At(s.tool, k)
    ensures Get(Finding(s), ["evidence", "stacks", k]) == At(s.stacks, k)
  {
    GetThree(Finding(s), "evidence", "memory", k);
    GetThree(Finding(s), "evidence", "tool", k);
    GetThree(Finding(s), "evidence", "stacks", k);
  }

  // ----- the preferred fields -----

  lemma FullClass(s: Sections)
    requires s == FULL
    ensures ClassOf(Finding(s)) == [1] && OperationOf(Finding(s)) == [8]
  {
    TopReads(s, "class");
    DeepReads(s, "operation");
  }

  lemma FullTool(s: Sections)
    requires s == FULL
    ensures ToolName(MARKING, Finding(s)) == Some([12])
  {
    DeepReads(s, "name");
  }

  lemma FullSummary(s: Sections)
    requires s == FULL
    ensures ToolSummary(MARKING, Finding(s)) == Some([101, 13])
  {
    DeepReads(s, "summary");
    assert [101] + [13] == [101, 13];
  }

  lemma FullSource(s: Sections)
    requires s == FULL
    ensures SourcePath(MARKING, Finding(s)) == Some([20])
  {
    TopReads(s, "source_path");
  }

  lemma FullBinary(s: Sections)
    requires s == FULL
    ensures BinaryIdentity(MARKING, Finding(s)) == Some([103, 21])
  {
    TopReads(s, "original_binary_path");
    assert [103] + [21] == [103, 21];
  }

  lemma FullSizes(s: Sections)
    requires s == FULL
    ensures MemorySizes(MARKING, Finding(s)) == (Some(9), Some(10), Some(11))
  {
    DeepReads(s, "size");
    DeepReads(s, "alloc_size");
    DeepReads(s, "alloc_offset");
  }

  lemma FullCall(s: Sections)
    requires s == FULL
    ensures CallSite(MARKING, Finding(s)) == Some([100, 14])
  {
    DeepReads(s, "call_frame");
    assert [100] + [14] == [100, 14];
  }

  lemma FullSites(s: Sections)
    requires s == FULL
    ensures Site(MARKING, Finding(s), "alloc_site", "alloc_frame", "alloc") == Some([6])
    ensures Site(MARKING, Finding(s), "free_site", "free_frame", "free") == Some([7])
  {
    TopReads(s, "alloc_site");
    TopReads(s, "free_site");
  }

  /** With every field there, the specific one is read, not the general one; a binary is not
      needed where there are sites. */
  lemma FullIdentity(s: Sections)
    requires s == FULL
    ensures InputsOf(MARKING, Finding(s)) == Inputs(
      [1], [8], Some([20]), Some([100, 14]), Some([6]), Some([7]), Some(9), Some(10), Some(11),
      Some([12]), Some([101, 13]), None)
  {
    FullClass(s);
    FullTool(s);
    FullSummary(s);
    FullSource(s);
    FullSizes(s);
    FullCall(s);
    FullSites(s);
  }

  // ----- the fields they fall back to -----

  lemma FallbackClass(s: Sections)
    requires s == FALLBACK
    ensures ClassOf(Finding(s)) == [2]
  {
    TopReads(s, "class");
    TopReads(s, "kind");
  }

  lemma FallbackOperation(s: Sections)
    requires s == FALLBACK
    ensures OperationOf(Finding(s)) == [5]
  {
    DeepReads(s, "operation");
    TopReads(s, "api");
  }

  lemma FallbackTool(s: Sections)
    requires s == FALLBACK
    ensures ToolName(MARKING, Finding(s)) == Some([3])
  {
    DeepReads(s, "name");
    TopReads(s, "origin");
  }

  lemma FallbackSummary(s: Sections)
    requires s == FALLBACK
    ensures ToolSummary(MARKING, Finding(s)) == Some([101, 4])
  {
    DeepReads(s, "summary");
    TopReads(s, "message");
    assert [101] + [4] == [101, 4];
  }

  lemma FallbackSource(s: Sections)
    requires s == FALLBACK
    ensures SourcePath(MARKING, Finding(s)) == Some([102, 23])
  {
    TopReads(s, "source_path");
    TopReads(s, "uri");
    assert [102] + [23] == [102, 23];
  }

  lemma FallbackBinary(s: Sections)
    requires s == FALLBACK
    ensures BinaryIdentity(MARKING, Finding(s)) == Some([103, 22])
  {
    TopReads(s, "original_binary_path");
    TopReads(s, "binary_path");
    assert [103] + [22] == [103, 22];
  }

  lemma FallbackSizes(s: Sections)
    requires s == FALLBACK
    ensures MemorySizes(MARKING, Finding(s)) == (Some(7), None, None)
  {
    DeepReads(s, "size");
    DeepReads(s, "alloc_size");
    DeepReads(s, "alloc_offset");
  }

  lemma FallbackCall(s: Sections)
    requires s == FALLBACK
    ensures CallSite(MARKING, Finding(s)) == Some([100, 17])
  {
    DeepReads(s, "call_frame");
    DeepReads(s, "call");
    FirstFrames();
  }

  lemma FallbackAlloc(s: Sections)
    requires s == FALLBACK
    ensures Site(MARKING, Finding(s), "alloc_site", "alloc_frame", "alloc") == Some([100, 15])
  {
    TopReads(s, "alloc_site");
    DeepReads(s, "alloc_frame");
    assert [100] + [15] == [100, 15];
  }

  lemma FallbackFree(s: Sections)
    requires s == FALLBACK
    ensures Site(MARKING, Finding(s), "free_site", "free_frame", "free") == Some([100, 19])
  {
    TopReads(s, "free_site");
    DeepReads(s, "free_frame");
    DeepReads(s, "free");
    FirstFrames();
  }

  lemma FirstFrames()
    ensures FirstSite(MARKING, [Null, Str([17]), Str([24])]) == Some([100, 17])
    ensures FirstSite(MARKING, [Str([19])]) == Some([100, 19])
  {
    assert [Null, Str([17]), Str([24])][1..] == [Str([17]), Str([24])];
    assert [100] + [17] == [100, 17] && [100] + [19] == [100, 19];
  }

  /** Without them: the kind, the API, the origin, the message, the location and the first
      frame of a stack that is one. Sizes may be text; what is no size is left out. */
  lemma FallbackIdentity(s: Sections)
    requires s == FALLBACK
    ensures InputsOf(MARKING, Finding(s)) == Inputs(
      [2], [5], Some([102, 23]), Some([100, 17]), Some([100, 15]), Some([100, 19]), Some(7), None, None,
      Some([3]), Some([101, 4]), None)
  {
    FallbackClass(s);
    FallbackOperation(s);
    FallbackTool(s);
    FallbackSummary(s);
    FallbackSource(s);
    FallbackSizes(s);
    FallbackCall(s);
    FallbackAlloc(s);
    FallbackFree(s);
  }

  // ----- what depends on the rest of the finding -----

  /** The call site is left out exactly where no tool reported the finding and its source
      path, its allocation site and a size are known. */
  lemma CallSiteLeftOutIff(r: Rules, f: Value)
    ensures var x := InputsOf(r, f);
      && (x.callSite.Some? ==> x.callSite == CallSite(r, f))
      && (x.callSite.None? <==>
            || CallSite(r, f).None?
            || (&& x.tool.None? && x.sourcePath.Some? && x.allocSite.Some?
                && (x.accessSize.Some? || x.allocSize.Some? || x.allocOffset.Some?)))
  {
  }

  /** The binary takes part exactly in native memory identities, and for tools that name
      neither source nor site. */
  lemma BinaryTakesPartIff(r: Rules, f: Value)
    requires BinaryIdentity(r, f).Some?
    ensures var x := InputsOf(r, f);
      && (x.binary.Some? ==> x.binary == BinaryIdentity(r, f))
      && (x.binary.Some? <==>
            || (&& x.tool.None? && r.stable(x.cls) && r.stable(x.operation)
                && x.accessSize.Some? && x.allocSize.Some? && x.allocOffset.Some?)
            || (&& x.tool.Some? && x.sourcePath.None? && CallSite(r, f).None? && x.allocSite.None? && x.freeSite.None?))
  {
  }

  /** Findings of the probes themselves have no tool; other origins name theirs. */
  lemma OriginIsTool(r: Rules, f: Value, t: Text)
    requires Get(f, ["evidence", "tool", "name"]).None? && Get(f, ["origin"]) == Some(Str(t))
    ensures ToolName(r, f) == if t == [101, 98, 112, 102] || !r.stable(t) then None else Some(t)
  {
    assert Ascii("ebpf") == [101, 98, 112, 102];
  }

  /** With no class, kind, operation or API: the text "unknown". */
  lemma Unknowns(f: Value)
    requires forall path: seq<string> :: path != [] ==> Get(f, path).None?
    ensures ClassOf(f) == OperationOf(f) == [117, 110, 107, 110, 111, 119, 110]
  {
    assert UNKNOWN == [117, 110, 107, 110, 111, 119, 110];
  }

  // ----- what a group takes from its first finding -----

  /** A finding whose grading fields are all there, and one with none of the preferred. */
  const GRADED: Sections := Sections(
    map["severity" := Str([30]), "confidence" := Str([31]), "pointer_status" := Str([32])],
    map["pointer_status" := Str([33])], map[], map[], map[], map["source_status" := Str([34])], map[])

  const UNGRADED: Sections := Sections(
    map["pointer_status" := Str([32])], map[], map[], map[], map[], map[], map[])

  lemma GradedPointer(r: Rules, s: Sections)
    ensures s == GRADED ==> HeadOf(r, Finding(s)).pointerStatus == Some([33])
    ensures s == UNGRADED ==> HeadOf(r, Finding(s)).pointerStatus == Some([32])
  {
    TopReads(s, "pointer_status");
  }

  lemma GradedHead(r: Rules, s: Sections)
    requires s == GRADED
    ensures var h := HeadOf(r, Finding(s));
      && h.severity == [30] && h.confidence == [31] && h.sourceStatus == [34]
      && h.callSite == CallSite(r, Finding(s)) && h.inputs == InputsOf(r, Finding(s))
  {
    TopReads(s, "severity");
    TopReads(s, "confidence");
    TopReads(s, "source_status");
  }

  lemma UngradedHead(r: Rules, s: Sections)
    requires s == UNGRADED
    ensures var h := HeadOf(r, Finding(s)); h.severity == h.confidence == h.sourceStatus == UNKNOWN
  {
    TopReads(s, "severity");
    TopReads(s, "confidence");
    TopReads(s, "source_status");
  }
}
