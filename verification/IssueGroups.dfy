/** Issue fingerprints and the grouping of findings that share one. */
module IssueGroups {
  import opened Words
  import opened Fnv
  import opened Grouping
  import opened Separators

  // ----- findings as JSON values -----

  datatype Value =
    | Null
    | Bool(b: bool)
    | Number(n: int)
    | Str(text: Text)
    | Array(items: seq<Value>)
    | Object(fields: map<string, Value>)

  function Get(v: Value, path: seq<string>): Option<Value> {
    if path == [] then Some(v)
    else if v.Object? && path[0] in v.fields then Get(v.fields[path[0]], path[1..])
    else None
  }

  lemma GetField(v: Value, key: string, rest: seq<string>)
    ensures Get(v, [key] + rest) == if v.Object? && key in v.fields then Get(v.fields[key], rest) else None
    ensures Get(v, [key]) == if v.Object? && key in v.fields then Some(v.fields[key]) else None
  {
    assert ([key] + rest)[1..] == rest && [key][1..] == [];
  }

  function Field(v: Value, key: string): Option<Value> {
    if v.Object? && key in v.fields then Some(v.fields[key]) else None
  }

  lemma GetThree(v: Value, a: string, b: string, c: string)
    ensures Get(v, [a]) == Field(v, a)
    ensures Get(v, [a, b, c]) ==
      if Field(v, a).None? then None
      else if Field(Field(v, a).value, b).None? then None
      else Field(Field(Field(v, a).value, b).value, c)
  {
    GetField(v, a, [b, c]);
    assert [a, b, c] == [a] + [b, c] && [b, c] == [b] + [c];
    if Field(v, a).Some? {
      GetField(Field(v, a).value, b, [c]);
      if Field(Field(v, a).value, b).Some? {
        GetField(Field(Field(v, a).value, b).value, c, []);
      }
    }
  }

  function StringAt(v: Value, path: seq<string>): Option<Text> {
    match Get(v, path)
    case Some(Str(t)) => Some(t)
    case _ => None
  }

  /** The string rules grouping relies on, whatever they are: which texts are stable,
      how a stack frame or a tool summary is normalized, and so on. */
  datatype Rules = Rules(
    stable: Text -> bool,
    stackSite: Text -> Option<Text>,
    summary: Text -> Text,
    filePath: Text -> Option<Text>,
    fileName: Text -> Option<Text>,
    parse: Text -> Option<u64>)

  function NumberAt(r: Rules, v: Value, path: seq<string>): Option<u64> {
    match Get(v, path)
    case Some(Number(n)) => if 0 <= n < TWO64 then Some(n) else None
    case Some(Str(t)) => r.parse(t)
    case _ => None
  }

  function OrElse<T>(a: Option<T>, b: Option<T>): Option<T> {
    if a.Some? then a else b
  }

  function GetOr<T>(a: Option<T>, d: T): T {
    if a.Some? then a.value else d
  }

  function Ascii(s: string): Text {
    seq(|s|, i requires 0 <= i < |s| => if s[i] as int < 128 then s[i] as int else 63)
  }

  const UNKNOWN: Text := Ascii("unknown")

  function StableOnly(r: Rules, t: Option<Text>): Option<Text> {
    if t.Some? && r.stable(t.value) then t else None
  }

  function FirstSite(r: Rules, frames: seq<Value>): Option<Text> {
    if frames == [] then None
    else
      var site := if frames[0].Str? then r.stackSite(frames[0].text) else None;
      if site.Some? then site else FirstSite(r, frames[1..])
  }

  function StackSite(r: Rules, f: Value, name: string): Option<Text> {
    match Get(f, ["evidence", "stacks", name])
    case Some(Array(frames)) => FirstSite(r, frames)
    case _ => None
  }

  function ToolFrame(r: Rules, f: Value, name: string): Option<Text> {
    var frame := StringAt(f, ["evidence", "tool", name]);
    if frame.Some? then r.stackSite(frame.value) else None
  }

  function ToolName(r: Rules, f: Value): Option<Text> {
    var name := OrElse(StringAt(f, ["evidence", "tool", "name"]), StringAt(f, ["origin"]));
    if name.Some? && name.value != Ascii("ebpf") then StableOnly(r, name) else None
  }

  function ToolSummary(r: Rules, f: Value): Option<Text> {
    var raw := OrElse(StringAt(f, ["evidence", "tool", "summary"]), StringAt(f, ["message"]));
    if raw.Some? then StableOnly(r, Some(r.summary(raw.value))) else None
  }

  function BinaryIdentity(r: Rules, f: Value): Option<Text> {
    var path := OrElse(StringAt(f, ["provenance", "original_binary_path"]), StringAt(f, ["provenance", "binary_path"]));
    if path.Some? then StableOnly(r, r.fileName(path.value)) else None
  }

  function SourcePath(r: Rules, f: Value): Option<Text> {
    var uri := StringAt(f, ["primaryLocation", "uri"]);
    var file := if uri.Some? then StableOnly(r, r.filePath(uri.value)) else None;
    OrElse(StringAt(f, ["provenance", "source_path"]), file)
  }

  function Site(r: Rules, f: Value, evidence: string, frame: string, stack: string): Option<Text> {
    OrElse(StableOnly(r, StringAt(f, ["evidence", evidence])),
           OrElse(ToolFrame(r, f, frame), StackSite(r, f, stack)))
  }

  function CallSite(r: Rules, f: Value): Option<Text> {
    OrElse(ToolFrame(r, f, "call_frame"), StackSite(r, f, "call"))
  }

  // ----- fingerprints -----

  datatype Inputs = Inputs(
    cls: Text, operation: Text, sourcePath: Option<Text>, callSite: Option<Text>,
    allocSite: Option<Text>, freeSite: Option<Text>,
    accessSize: Option<u64>, allocSize: Option<u64>, allocOffset: Option<u64>,
    tool: Option<Text>, toolSummary: Option<Text>, binary: Option<Text>)

  predicate StableNativeMemory(r: Rules, tool: Option<Text>, cls: Text, operation: Text,
      accessSize: Option<u64>, allocSize: Option<u64>, allocOffset: Option<u64>) {
    tool.None? && r.stable(cls) && r.stable(operation) && accessSize.Some? && allocSize.Some? && allocOffset.Some?
  }

  function FingerprintCallSite(tool: Option<Text>, callSite: Option<Text>, sourcePath: Option<Text>,
      allocSite: Option<Text>, sized: bool): Option<Text> {
    if callSite.None? || tool.Some? then callSite
    else if sourcePath.Some? && allocSite.Some? && sized then None
    else callSite
  }

  function ClassOf(f: Value): Text {
    GetOr(OrElse(StringAt(f, ["class"]), StringAt(f, ["kind"])), UNKNOWN)
  }

  function OperationOf(f: Value): Text {
    GetOr(OrElse(StringAt(f, ["evidence", "memory", "operation"]), StringAt(f, ["evidence", "api"])), UNKNOWN)
  }

  function MemorySizes(r: Rules, f: Value): (Option<u64>, Option<u64>, Option<u64>) {
    (NumberAt(r, f, ["evidence", "memory", "size"]),
     NumberAt(r, f, ["evidence", "memory", "alloc_size"]),
     NumberAt(r, f, ["evidence", "memory", "alloc_offset"]))
  }

  function InputsOf(r: Rules, f: Value): Inputs {
    var tool, cls, operation := ToolName(r, f), ClassOf(f), OperationOf(f);
    var sourcePath := SourcePath(r, f);
    var allocSite := Site(r, f, "alloc_site", "alloc_frame", "alloc");
    var freeSite := Site(r, f, "free_site", "free_frame", "free");
    var (accessSize, allocSize, allocOffset) := MemorySizes(r, f);
    var callSite := FingerprintCallSite(tool, CallSite(r, f), sourcePath, allocSite,
                                        accessSize.Some? || allocSize.Some? || allocOffset.Some?);
    var native := StableNativeMemory(r, tool, cls, operation, accessSize, allocSize, allocOffset);
    var siteless := tool.Some? && sourcePath.None? && callSite.None? && allocSite.None? && freeSite.None?;
    Inputs(cls, operation, sourcePath, callSite, allocSite, freeSite, accessSize, allocSize, allocOffset,
           tool, ToolSummary(r, f), if native || siteless then BinaryIdentity(r, f) else None)
  }

  function Decimal(n: nat): Text {
    if n < 10 then [48 + n] else Decimal(n / 10) + [48 + n % 10]
  }

  function SizeText(n: Option<u64>): Text {
    if n.Some? then Decimal(n.value) else []
  }

  predicate UsesNativeMemory(r: Rules, x: Inputs) {
    StableNativeMemory(r, x.tool, x.cls, x.operation, x.accessSize, x.allocSize, x.allocOffset)
  }

  function Fields(r: Rules, x: Inputs): seq<Text> {
    var native := UsesNativeMemory(r, x);
    [x.cls, x.operation]
    + (if native then [[], [], [], []]
       else [GetOr(x.sourcePath, []), GetOr(x.callSite, []), GetOr(x.allocSite, []), GetOr(x.freeSite, [])])
    + [SizeText(x.accessSize), SizeText(x.allocSize), SizeText(x.allocOffset)]
    + (if native then [Ascii("native_memory_identity"), GetOr(x.binary, [])] else [])
    + (if x.tool.Some? then [GetOr(x.tool, []), GetOr(x.toolSummary, []), GetOr(x.binary, [])] else [])
  }

  function Join(fields: seq<Text>): Text {
    if fields == [] then []
    else if |fields| == 1 then fields[0]
    else fields[0] + [SEPARATOR] + Join(fields[1..])
  }

  function Hex(n: nat, digits: nat): (t: Text)
    ensures |t| == digits
  {
    if digits == 0 then [] else Hex(n / 16, digits - 1) + [HexDigit(n % 16)]
  }

  function Fingerprint(r: Rules, x: Inputs): Text {
    Ascii("re-issue-v1-") + Hex(Fnv1a64(Join(Fields(r, x))), 16)
  }

  function FingerprintOf(r: Rules, f: Value): Text {
    Fingerprint(r, InputsOf(r, f))
  }

  lemma {:induction false} HexInjective(a: nat, b: nat, digits: nat, bound: nat)
    requires a < bound && b < bound && bound == Pow16(digits)
    ensures Hex(a, digits) == Hex(b, digits) <==> a == b
  {
    if digits > 0 {
      var x, y := Hex(a, digits), Hex(b, digits);
      HexInjective(a / 16, b / 16, digits - 1, bound / 16);
      if x == y {
        assert x[..digits - 1] == Hex(a / 16, digits - 1) && y[..digits - 1] == Hex(b / 16, digits - 1);
        assert x[digits - 1] == HexDigit(a % 16) && y[digits - 1] == HexDigit(b % 16);
      }
    }
  }

  function Pow16(k: nat): nat {
    if k == 0 then 1 else 16 * Pow16(k - 1)
  }

  lemma SixteenDigits()
    ensures Pow16(16) == TWO64
  {
    assert Pow16(4) == 0x1_0000;
    assert Pow16(8) == 0x1_0000_0000;
    assert Pow16(12) == 0x1_0000_0000_0000;
  }

  /** Fingerprints are equal exactly when the hashes of the joined fields are. */
  lemma FingerprintIffHash(r: Rules, x: Inputs, y: Inputs)
    ensures Fingerprint(r, x) == Fingerprint(r, y) <==> Fnv1a64(Join(Fields(r, x))) == Fnv1a64(Join(Fields(r, y)))
  {
    var a, b := Fnv1a64(Join(Fields(r, x))), Fnv1a64(Join(Fields(r, y)));
    SixteenDigits();
    HexInjective(a, b, 16, TWO64);
    var p := |Ascii("re-issue-v1-")|;
    assert Fingerprint(r, x)[p..] == Hex(a, 16) && Fingerprint(r, y)[p..] == Hex(b, 16);
  }

  /** Findings whose joined fields differ in exactly one byte never share a fingerprint. */
  lemma OneByteApartNeverGrouped(r: Rules, x: Inputs, y: Inputs, head: Text, a: byte, b: byte, tail: Text)
    requires Join(Fields(r, x)) == head + [a] + tail && Join(Fields(r, y)) == head + [b] + tail && a != b
    ensures Fingerprint(r, x) != Fingerprint(r, y)
  {
    OneByteNeverCollides(head, a, b, tail);
    FingerprintIffHash(r, x, y);
  }

  predicate NativeMemoryFinding(r: Rules, f: Value) {
    var (access, size, offset) := MemorySizes(r, f);
    StableNativeMemory(r, ToolName(r, f), ClassOf(f), OperationOf(f), access, size, offset)
  }

  lemma NativeFields(r: Rules, f: Value)
    requires NativeMemoryFinding(r, f)
    ensures var (access, size, offset) := MemorySizes(r, f);
      Fields(r, InputsOf(r, f)) ==
      [ClassOf(f), OperationOf(f), [], [], [], [], SizeText(access), SizeText(size), SizeText(offset),
       Ascii("native_memory_identity"), GetOr(BinaryIdentity(r, f), [])]
  {
    var x := InputsOf(r, f);
    assert UsesNativeMemory(r, x) && x.binary == BinaryIdentity(r, f);
  }

  /** Findings with a stable native memory identity group by class, operation, sizes and
      binary alone: source path, call, alloc and free sites do not matter. */
  lemma NativeIdentityIgnoresSites(r: Rules, f: Value, g: Value)
    requires NativeMemoryFinding(r, f) && ToolName(r, g).None?
    requires ClassOf(f) == ClassOf(g) && OperationOf(f) == OperationOf(g)
    requires MemorySizes(r, f) == MemorySizes(r, g) && BinaryIdentity(r, f) == BinaryIdentity(r, g)
    ensures FingerprintOf(r, f) == FingerprintOf(r, g)
  {
    NativeFields(r, f);
    NativeFields(r, g);
  }

  // ----- annotation and grouping -----

  function AfterLastDash(t: Text): Text {
    if t == [] then [] else if t[|t| - 1] == 45 then [] else AfterLastDash(t[..|t| - 1]) + [t[|t| - 1]]
  }

  function GroupId(fingerprint: Text): Text {
    var suffix := AfterLastDash(fingerprint);
    Ascii("IG-") + suffix[..Min(|suffix|, 12)]
  }

  /** A finding object with its fingerprint and group id written into it. */
  function Marked(f: Value, fp: Text): Value
    requires f.Object?
  {
    Object(f.fields["fingerprint" := Str(fp)]["issue_group_id" := Str(GroupId(fp))])
  }

  function Annotated(r: Rules, f: Value): Value {
    if f.Object? then Marked(f, FingerprintOf(r, f)) else f
  }

  function FindingId(f: Value, index: nat): Text {
    GetOr(StringAt(f, ["id"]), Ascii("finding-") + Decimal(index + 1))
  }

  /** What a group takes from the first finding it meets. */
  datatype Head = Head(
    severity: Text, confidence: Text, sourceStatus: Text, callSite: Option<Text>, pointerStatus: Option<Text>,
    inputs: Inputs)

  function HeadOf(r: Rules, f: Value): Head {
    Head(GetOr(StringAt(f, ["severity"]), UNKNOWN), GetOr(StringAt(f, ["confidence"]), UNKNOWN),
         GetOr(StringAt(f, ["provenance", "source_status"]), UNKNOWN), CallSite(r, f),
         OrElse(StringAt(f, ["evidence", "pointer_status"]), StringAt(f, ["pointer_status"])),
         InputsOf(r, f))
  }

  datatype Group = Group(
    id: Text, fingerprint: Text, findingCount: nat, indices: seq<nat>, ids: seq<Text>, head: Head)

  /** What one finding contributes to the groups. */
  datatype Entry = Entry(fingerprint: Text, id: Text, head: Head)

  function EntryOf(r: Rules, f: Value, index: nat): Entry {
    Entry(FingerprintOf(r, f), FindingId(f, index), HeadOf(r, f))
  }

  function EntriesOf(r: Rules, fs: seq<Value>): seq<Entry> {
    seq(|fs|, i requires 0 <= i < |fs| => EntryOf(r, fs[i], i))
  }

  function Prints(es: seq<Entry>): seq<Text> {
    seq(|es|, i requires 0 <= i < |es| => es[i].fingerprint)
  }

  function IdsAt(es: seq<Entry>, positions: seq<nat>): seq<Text>
    requires forall i :: 0 <= i < |positions| ==> positions[i] < |es|
  {
    seq(|positions|, i requires 0 <= i < |positions| => es[positions[i]].id)
  }

  /** A group of a list of entries: all positions of one fingerprint, headed by the first. */
  predicate GroupOf(es: seq<Entry>, g: Group) {
    && g.id == GroupId(g.fingerprint)
    && g.indices == PositionsOf(Prints(es), g.fingerprint) && g.indices != []
    && g.findingCount == |g.indices|
    && g.ids == IdsAt(es, g.indices)
    && g.head == es[g.indices[0]].head
  }

  /** One group for each fingerprint, in ascending order of fingerprint. */
  predicate Reports(es: seq<Entry>, groups: seq<Group>) {
    var order := KeyOrder(Prints(es));
    && |groups| == |order|
    && forall i :: 0 <= i < |groups| ==> groups[i].fingerprint == order[i] && GroupOf(es, groups[i])
  }

  predicate Report(r: Rules, fs: seq<Value>, groups: seq<Group>) {
    Reports(EntriesOf(r, fs), groups)
  }

  // ----- annotation does not disturb fingerprints -----

  predicate ReadPath(path: seq<string>) {
    path != [] && path[0] != "fingerprint" && path[0] != "issue_group_id"
  }

  ghost predicate SameReads(f: Value, g: Value) {
    forall path :: ReadPath(path) ==> Get(g, path) == Get(f, path)
  }

  lemma MarksAreNotRead(f: Value, fp: Text)
    requires f.Object?
    ensures SameReads(f, Marked(f, fp))
    ensures Marked(Marked(f, fp), fp) == Marked(f, fp)
  {
    assert Marked(Marked(f, fp), fp).fields == Marked(f, fp).fields;
  }

  lemma SameString(f: Value, g: Value, path: seq<string>)
    requires SameReads(f, g) && ReadPath(path)
    ensures StringAt(g, path) == StringAt(f, path)
  {
  }

  lemma SameSites(r: Rules, f: Value, g: Value, evidence: string, frame: string, stack: string)
    requires SameReads(f, g)
    ensures Site(r, g, evidence, frame, stack) == Site(r, f, evidence, frame, stack)
    ensures ToolFrame(r, g, frame) == ToolFrame(r, f, frame) && StackSite(r, g, stack) == StackSite(r, f, stack)
  {
    SameString(f, g, ["evidence", evidence]);
    SameString(f, g, ["evidence", "tool", frame]);
    assert ReadPath(["evidence", "stacks", stack]);
  }

  lemma SameTool(r: Rules, f: Value, g: Value)
    requires SameReads(f, g)
    ensures ToolName(r, g) == ToolName(r, f) && ToolSummary(r, g) == ToolSummary(r, f)
    ensures BinaryIdentity(r, g) == BinaryIdentity(r, f)
  {
    SameString(f, g, ["evidence", "tool", "name"]);
    SameString(f, g, ["origin"]);
    SameString(f, g, ["evidence", "tool", "summary"]);
    SameString(f, g, ["message"]);
    SameString(f, g, ["provenance", "original_binary_path"]);
    SameString(f, g, ["provenance", "binary_path"]);
  }

  lemma SameNumber(r: Rules, f: Value, g: Value, field: string)
    requires SameReads(f, g)
    ensures NumberAt(r, g, ["evidence", "memory", field]) == NumberAt(r, f, ["evidence", "memory", field])
  {
    assert ReadPath(["evidence", "memory", field]);
  }

  lemma SameMemory(r: Rules, f: Value, g: Value)
    requires SameReads(f, g)
    ensures MemorySizes(r, g) == MemorySizes(r, f)
  {
    SameNumber(r, f, g, "size");
    SameNumber(r, f, g, "alloc_size");
    SameNumber(r, f, g, "alloc_offset");
  }

  lemma SameIdentity(r: Rules, f: Value, g: Value)
    requires SameReads(f, g)
    ensures ClassOf(g) == ClassOf(f) && OperationOf(g) == OperationOf(f) && SourcePath(r, g) == SourcePath(r, f)
  {
    SameString(f, g, ["class"]);
    SameString(f, g, ["kind"]);
    SameString(f, g, ["evidence", "memory", "operation"]);
    SameString(f, g, ["evidence", "api"]);
    SameString(f, g, ["provenance", "source_path"]);
    SameString(f, g, ["primaryLocation", "uri"]);
  }

  lemma SameInputs(r: Rules, f: Value, g: Value)
    requires SameReads(f, g)
    ensures InputsOf(r, g) == InputsOf(r, f) && CallSite(r, g) == CallSite(r, f)
  {
    SameTool(r, f, g);
    SameIdentity(r, f, g);
    SameMemory(r, f, g);
    SameSites(r, f, g, "alloc_site", "alloc_frame", "alloc");
    SameSites(r, f, g, "free_site", "free_frame", "free");
    SameSites(r, f, g, "alloc_site", "call_frame", "call");
  }

  /** Everything grouping reads is the same before and after annotation. */
  lemma AnnotationKeepsReads(r: Rules, f: Value)
    ensures SameReads(f, Annotated(r, f))
    ensures InputsOf(r, Annotated(r, f)) == InputsOf(r, f)
    ensures HeadOf(r, Annotated(r, f)) == HeadOf(r, f)
    ensures StringAt(Annotated(r, f), ["id"]) == StringAt(f, ["id"])
  {
    var g := Annotated(r, f);
    if f.Object? {
      MarksAreNotRead(f, FingerprintOf(r, f));
    }
    SameInputs(r, f, g);
    SameHead(r, f, g);
    SameString(f, g, ["id"]);
  }

  lemma SameHead(r: Rules, f: Value, g: Value)
    requires SameReads(f, g) && InputsOf(r, g) == InputsOf(r, f) && CallSite(r, g) == CallSite(r, f)
    ensures HeadOf(r, g) == HeadOf(r, f)
  {
    SameString(f, g, ["severity"]);
    SameString(f, g, ["confidence"]);
    SameString(f, g, ["provenance", "source_status"]);
    SameString(f, g, ["evidence", "pointer_status"]);
    SameString(f, g, ["pointer_status"]);
  }

  lemma AnnotationIdempotent(r: Rules, f: Value)
    ensures Annotated(r, Annotated(r, f)) == Annotated(r, f)
  {
    AnnotationKeepsEntry(r, f, 0);
    if f.Object? {
      MarksAreNotRead(f, FingerprintOf(r, f));
    }
  }

  function AnnotatedAll(r: Rules, fs: seq<Value>): seq<Value> {
    seq(|fs|, i requires 0 <= i < |fs| => Annotated(r, fs[i]))
  }

  lemma AnnotationKeepsEntry(r: Rules, f: Value, index: nat)
    ensures EntryOf(r, Annotated(r, f), index) == EntryOf(r, f, index)
  {
    AnnotationKeepsReads(r, f);
  }

  // ----- the grouping loop -----

  /** The builder map after some entries: one group for each fingerprint met. */
  ghost predicate Building(es: seq<Entry>, groups: map<Text, Group>) {
    && (forall fp :: fp in groups <==> fp in Prints(es))
    && forall fp :: fp in groups ==> groups[fp].fingerprint == fp && GroupOf(es, groups[fp])
  }

  lemma PrintsAppend(es: seq<Entry>, e: Entry)
    ensures Prints(es + [e]) == Prints(es) + [e.fingerprint] && Prints(es + [e])[..|es|] == Prints(es)
  {
  }

  lemma GroupUnchanged(es: seq<Entry>, e: Entry, g: Group)
    requires GroupOf(es, g) && g.fingerprint != e.fingerprint
    ensures GroupOf(es + [e], g)
  {
    PrintsAppend(es, e);
    assert IdsAt(es + [e], g.indices) == IdsAt(es, g.indices);
  }

  function Grown(g: Group, id: Text, index: nat): Group {
    g.(findingCount := g.findingCount + 1, indices := g.indices + [index], ids := g.ids + [id])
  }

  function Born(e: Entry, index: nat): Group {
    Group(GroupId(e.fingerprint), e.fingerprint, 1, [index], [e.id], e.head)
  }

  lemma GroupGrown(es: seq<Entry>, e: Entry, g: Group)
    requires GroupOf(es, g) && g.fingerprint == e.fingerprint
    ensures GroupOf(es + [e], Grown(g, e.id, |es|))
  {
    PrintsAppend(es, e);
    var g' := Grown(g, e.id, |es|);
    assert g'.indices == PositionsOf(Prints(es + [e]), g.fingerprint);
    assert IdsAt(es + [e], g'.indices) == g'.ids;
  }

  lemma GroupBorn(es: seq<Entry>, e: Entry)
    requires e.fingerprint !in Prints(es)
    ensures GroupOf(es + [e], Born(e, |es|))
  {
    PrintsAppend(es, e);
    NoPositions(Prints(es), e.fingerprint);
    assert IdsAt(es + [e], [|es|]) == [e.id];
  }

  lemma NoPositions(keys: seq<Text>, k: Text)
    requires k !in keys
    ensures PositionsOf(keys, k) == []
  {
    PositionsAre(keys, k);
    EmptyOrInhabited(PositionsOf(keys, k));
  }

  /** The entry of the ordered map: modify the group, or insert it. */
  method AddToGroups(built: map<Text, Group>, e: Entry, index: nat, ghost es: seq<Entry>)
    returns (built': map<Text, Group>)
    requires Building(es, built) && index == |es|
    ensures Building(es + [e], built')
  {
    PrintsAppend(es, e);
    var fp := e.fingerprint;
    if fp in built {
      var g := built[fp];
      GroupGrown(es, e, g);
      g := g.(findingCount := g.findingCount + 1, indices := g.indices + [index], ids := g.ids + [e.id]);
      built' := built[fp := g];
    } else {
      GroupBorn(es, e);
      built' := built[fp := Group(GroupId(fp), fp, 1, [index], [e.id], e.head)];
    }
    forall x | x in built && x != fp ensures GroupOf(es + [e], built[x]) {
      GroupUnchanged(es, e, built[x]);
    }
  }

  method AnnotateFinding(r: Rules, findings: array<Value>, index: nat) returns (e: Entry)
    requires index < findings.Length
    modifies findings
    ensures findings[..] == old(findings[..])[index := Annotated(r, old(findings[index]))]
    ensures e == EntryOf(r, old(findings[index]), index)
  {
    var f := findings[index];
    var fp := FingerprintOf(r, f);
    if f.Object? {
      var fields := f.fields["fingerprint" := Str(fp)];
      findings[index] := Object(fields["issue_group_id" := Str(GroupId(fp))]);
    }
    AnnotationKeepsEntry(r, f, index);
    e := Entry(fp, FindingId(findings[index], index), HeadOf(r, findings[index]));
  }

  /** The findings with the first `n` annotated. */
  ghost function Partly(r: Rules, fs: seq<Value>, n: nat): seq<Value> {
    seq(|fs|, i requires 0 <= i < |fs| => if i < n then Annotated(r, fs[i]) else fs[i])
  }

  lemma PartlyStep(r: Rules, fs: seq<Value>, n: nat)
    requires n < |fs|
    ensures Partly(r, fs, n)[n] == fs[n]
    ensures Partly(r, fs, n)[n := Annotated(r, fs[n])] == Partly(r, fs, n + 1)
  {
  }

  lemma EntriesStep(r: Rules, fs: seq<Value>, n: nat)
    requires n < |fs|
    ensures EntriesOf(r, fs)[n] == EntryOf(r, fs[n], n)
    ensures EntriesOf(r, fs)[..n + 1] == EntriesOf(r, fs)[..n] + [EntriesOf(r, fs)[n]]
  {
  }

  lemma PartlyEnds(r: Rules, fs: seq<Value>)
    ensures Partly(r, fs, 0) == fs && Partly(r, fs, |fs|) == AnnotatedAll(r, fs)
  {
  }

  method AnnotateFindings(r: Rules, findings: array<Value>) returns (groups: seq<Group>)
    modifies findings
    ensures findings[..] == AnnotatedAll(r, old(findings[..]))
    ensures Report(r, old(findings[..]), groups)
  {
    ghost var fs := findings[..];
    ghost var es := EntriesOf(r, fs);
    var built: map<Text, Group> := map[];
    var order: seq<Text> := [];
    PartlyEnds(r, fs);
    for index := 0 to findings.Length
      invariant findings[..] == Partly(r, fs, index)
      invariant Building(es[..index], built)
      invariant order == KeyOrder(Prints(es[..index]))
    {
      PartlyStep(r, fs, index);
      EntriesStep(r, fs, index);
      assert findings[index] == findings[..][index];
      var e := AnnotateFinding(r, findings, index);
      built := AddToGroups(built, e, index, es[..index]);
      order := Inserted(order, e.fingerprint);
      PrintsAppend(es[..index], e);
    }
    assert es[..findings.Length] == es;
    groups := ListGroups(built, order, es);
  }

  method ListGroups(built: map<Text, Group>, order: seq<Text>, ghost es: seq<Entry>) returns (groups: seq<Group>)
    requires Building(es, built) && order == KeyOrder(Prints(es))
    ensures Reports(es, groups)
  {
    KeyOrderIs(Prints(es));
    groups := seq(|order|, i requires 0 <= i < |order| && order[i] in built => built[order[i]]);
  }

  // ----- the report is a partition -----

  predicate InGroup(groups: seq<Group>, k: int, i: int) {
    0 <= k < |groups| && i in groups[k].indices
  }

  lemma InGroupIff(es: seq<Entry>, groups: seq<Group>, k: int, i: int)
    requires Reports(es, groups) && 0 <= k < |groups|
    ensures InGroup(groups, k, i) <==> 0 <= i < |es| && es[i].fingerprint == groups[k].fingerprint
  {
    PositionsAre(Prints(es), groups[k].fingerprint);
  }

  lemma GroupsAscend(es: seq<Entry>, groups: seq<Group>)
    requires Reports(es, groups)
    ensures forall k, l :: 0 <= k < l < |groups| ==> Less(groups[k].fingerprint, groups[l].fingerprint)
  {
    KeyOrderIs(Prints(es));
    forall k, l | 0 <= k < l < |groups| ensures Less(groups[k].fingerprint, groups[l].fingerprint) {
      assert Less(KeyOrder(Prints(es))[k], KeyOrder(Prints(es))[l]);
    }
  }

  lemma EntryHasGroup(es: seq<Entry>, groups: seq<Group>, i: nat) returns (k: nat)
    requires Reports(es, groups) && i < |es|
    ensures InGroup(groups, k, i) && groups[k].fingerprint == es[i].fingerprint
    ensures forall l :: InGroup(groups, l, i) ==> l == k
  {
    var order := KeyOrder(Prints(es));
    KeyOrderIs(Prints(es));
    assert Prints(es)[i] in Prints(es);
    k :| 0 <= k < |order| && order[k] == Prints(es)[i];
    InGroupIff(es, groups, k, i);
    GroupsAscend(es, groups);
    forall l | InGroup(groups, l, i) ensures l == k {
      InGroupIff(es, groups, l, i);
      LessTrichotomy(groups[k].fingerprint, groups[l].fingerprint);
    }
  }

  /** Every finding is in exactly one group, and that group carries its fingerprint. */
  lemma GroupsPartitionFindings(r: Rules, fs: seq<Value>, groups: seq<Group>, i: nat) returns (k: nat)
    requires Report(r, fs, groups) && i < |fs|
    ensures InGroup(groups, k, i) && groups[k].fingerprint == FingerprintOf(r, fs[i])
    ensures forall l :: InGroup(groups, l, i) ==> l == k
  {
    k := EntryHasGroup(EntriesOf(r, fs), groups, i);
  }

  /** Groups are distinct and ascend by fingerprint; each lists exactly the findings of its
      fingerprint, in increasing order, and counts them. */
  lemma GroupListsItsFindings(r: Rules, fs: seq<Value>, groups: seq<Group>, k: nat)
    requires Report(r, fs, groups) && k < |groups|
    ensures var g := groups[k];
      && g.findingCount == |g.indices| == |g.ids| > 0
      && (forall a, b :: 0 <= a < b < |g.indices| ==> g.indices[a] < g.indices[b])
      && (forall i :: i in g.indices <==> 0 <= i < |fs| && FingerprintOf(r, fs[i]) == g.fingerprint)
      && (forall a :: 0 <= a < |g.indices| ==>
            g.indices[a] < |fs| && g.ids[a] == FindingId(fs[g.indices[a]], g.indices[a]))
      && g.head == HeadOf(r, fs[g.indices[0]]) && g.id == GroupId(g.fingerprint)
      && forall l :: k < l < |groups| ==> Less(g.fingerprint, groups[l].fingerprint)
  {
    var es := EntriesOf(r, fs);
    GroupsAscend(es, groups);
    PositionsAre(Prints(es), groups[k].fingerprint);
    forall i ensures i in groups[k].indices <==> 0 <= i < |fs| && FingerprintOf(r, fs[i]) == groups[k].fingerprint {
      InGroupIff(es, groups, k, i);
    }
  }

  function CountAll(groups: seq<Group>): nat {
    if groups == [] then 0 else groups[0].findingCount + CountAll(groups[1..])
  }

  lemma {:induction false} UnitWeights(keys: seq<Text>, k: Text)
    ensures WeightOf(keys, seq(|keys|, i => 1), k) == |PositionsOf(keys, k)|
  {
    if keys != [] {
      UnitWeights(keys[..|keys| - 1], k);
      assert seq(|keys|, i => 1)[..|keys| - 1] == seq(|keys| - 1, i => 1);
    }
  }

  lemma {:induction false} UnitSum(n: nat)
    ensures Sum(seq(n, i => 1)) == n
  {
    if n > 0 {
      UnitSum(n - 1);
      assert seq(n, i => 1)[..n - 1] == seq(n - 1, i => 1);
    }
  }

  lemma {:induction false} CountIsWeight(es: seq<Entry>, groups: seq<Group>, order: seq<Text>)
    requires |groups| == |order|
    requires forall i :: 0 <= i < |groups| ==> groups[i].fingerprint == order[i] && GroupOf(es, groups[i])
    ensures CountAll(groups) == WeightOver(order, Prints(es), seq(|es|, i => 1))
  {
    if groups != [] {
      UnitWeights(Prints(es), order[0]);
      CountIsWeight(es, groups[1..], order[1..]);
    }
  }

  /** The group counts add up to the number of findings. */
  lemma CountsSumToFindings(r: Rules, fs: seq<Value>, groups: seq<Group>)
    requires Report(r, fs, groups)
    ensures CountAll(groups) == |fs|
  {
    var es := EntriesOf(r, fs);
    KeyOrderIs(Prints(es));
    CountIsWeight(es, groups, KeyOrder(Prints(es)));
    WeightConserved(KeyOrder(Prints(es)), Prints(es), seq(|es|, i => 1));
    UnitSum(|es|);
  }

  /** A report is determined by its findings. */
  lemma ReportUnique(r: Rules, fs: seq<Value>, a: seq<Group>, b: seq<Group>)
    requires Report(r, fs, a) && Report(r, fs, b)
    ensures a == b
  {
  }

  /** Annotating annotated findings changes nothing, and the one report of the findings is
      the one report of the annotated findings. */
  lemma ReannotationIsIdempotent(r: Rules, fs: seq<Value>, groups: seq<Group>, again: seq<Group>)
    ensures AnnotatedAll(r, AnnotatedAll(r, fs)) == AnnotatedAll(r, fs)
    ensures Report(r, AnnotatedAll(r, fs), groups) <==> Report(r, fs, groups)
    ensures Report(r, fs, groups) && Report(r, AnnotatedAll(r, fs), again) ==> again == groups
  {
    var fs' := AnnotatedAll(r, fs);
    forall i | 0 <= i < |fs| ensures Annotated(r, fs'[i]) == fs'[i] && EntryOf(r, fs'[i], i) == EntryOf(r, fs[i], i) {
      AnnotationIdempotent(r, fs[i]);
      AnnotationKeepsEntry(r, fs[i], i);
    }
    assert EntriesOf(r, fs') == EntriesOf(r, fs);
    if Report(r, fs, groups) && Report(r, fs', again) {
      ReportUnique(r, fs, groups, again);
    }
  }
}
