/** What a fingerprint tells apart: the text it hashes, taken back to the inputs. */
module Preimages {
  import opened Words
  import opened Fnv
  import opened Grouping
  import opened Separators
  import opened IssueGroups
  import RepeatGroups

  // ----- joined fields -----

  lemma {:induction false} JoinInjective(xs: seq<Text>, ys: seq<Text>)
    requires xs != [] && ys != [] && forall t :: t in xs || t in ys ==> NoSep(t)
    ensures Join(xs) == Join(ys) <==> xs == ys
  {
    assert xs == [xs[0]] + xs[1..] && ys == [ys[0]] + ys[1..];
    if |xs| == 1 || |ys| == 1 {
      JoinedHasSep(xs);
      JoinedHasSep(ys);
    } else if Join(xs) == Join(ys) {
      FirstSepSplits(xs[0], Join(xs[1..]), ys[0], Join(ys[1..]));
      JoinInjective(xs[1..], ys[1..]);
    }
  }

  lemma JoinedHasSep(xs: seq<Text>)
    requires xs != [] && NoSep(xs[0])
    ensures NoSep(Join(xs)) <==> |xs| == 1
  {
    if |xs| > 1 {
      SepAt(xs[0], Join(xs[1..]));
    }
  }

  /** The joined text around one field. */
  lemma {:induction false} FieldInJoin(xs: seq<Text>, k: nat) returns (h: Text, t: Text)
    requires k < |xs|
    ensures forall f: Text :: Join(xs[k := f]) == h + f + t
  {
    if k == 0 {
      h, t := [], if |xs| == 1 then [] else SEP + Join(xs[1..]);
      forall f: Text ensures Join(xs[k := f]) == h + f + t {
        assert xs[k := f][1..] == xs[1..];
        assert f + SEP + Join(xs[1..]) == f + (SEP + Join(xs[1..]));
      }
    } else {
      var h1, t1 := FieldInJoin(xs[1..], k - 1);
      h, t := xs[0] + SEP + h1, t1;
      forall f: Text ensures Join(xs[k := f]) == h + f + t {
        assert xs[k := f][1..] == xs[1..][k - 1 := f];
        assert xs[0] + SEP + (h1 + f + t1) == h + f + t;
      }
    }
  }

  // ----- sizes as text -----

  function ReadDecimal(t: Text): nat {
    if t == [] then 0 else 10 * ReadDecimal(t[..|t| - 1]) + if t[|t| - 1] >= 48 then t[|t| - 1] - 48 else 0
  }

  /** A number is written in decimal digits and reads back. */
  lemma {:induction false} DecimalReadsBack(n: nat)
    ensures ReadDecimal(Decimal(n)) == n && Decimal(n) != []
    ensures forall c :: c in Decimal(n) ==> 48 <= c <= 57
  {
    if n < 10 {
      assert Decimal(n)[..0] == [];
    } else {
      DecimalReadsBack(n / 10);
      assert Decimal(n)[..|Decimal(n)| - 1] == Decimal(n / 10);
    }
  }

  lemma SizeTextInjective(a: Option<u64>, b: Option<u64>)
    ensures SizeText(a) == SizeText(b) <==> a == b
    ensures NoSep(SizeText(a))
  {
    if a.Some? {
      DecimalReadsBack(a.value);
    }
    if b.Some? {
      DecimalReadsBack(b.value);
    }
  }

  // ----- what a preimage tells apart -----

  predicate NoSepIn(t: Option<Text>) {
    t.Some? ==> NoSep(t.value)
  }

  /** No text of the inputs holds the separator. */
  predicate Separable(x: Inputs) {
    && NoSep(x.cls) && NoSep(x.operation) && NoSepIn(x.sourcePath) && NoSepIn(x.callSite) && NoSepIn(x.allocSite)
    && NoSepIn(x.freeSite) && NoSepIn(x.tool) && NoSepIn(x.toolSummary) && NoSepIn(x.binary)
  }

  /** Equal texts, an absent one read as empty. */
  predicate SameText(a: Option<Text>, b: Option<Text>) {
    (if a.Some? then a.value else []) == (if b.Some? then b.value else [])
  }

  predicate NativeIdentity(r: Rules, x: Inputs) {
    && x.tool.None? && r.stable(x.cls) && r.stable(x.operation)
    && x.accessSize.Some? && x.allocSize.Some? && x.allocOffset.Some?
  }

  /** The identity of an issue: always class, operation and the three sizes; for a native memory
      issue the binary; for every other one the source path and the three sites, and, if a tool
      reported it, the tool, its summary and the binary. */
  predicate SameIssue(r: Rules, x: Inputs, y: Inputs) {
    && x.cls == y.cls && x.operation == y.operation
    && x.accessSize == y.accessSize && x.allocSize == y.allocSize && x.allocOffset == y.allocOffset
    && (x.tool.Some? <==> y.tool.Some?)
    && if NativeIdentity(r, x) then SameText(x.binary, y.binary)
       else
         && SameText(x.sourcePath, y.sourcePath) && SameText(x.callSite, y.callSite)
         && SameText(x.allocSite, y.allocSite) && SameText(x.freeSite, y.freeSite)
         && (x.tool.Some? ==>
               x.tool == y.tool && SameText(x.toolSummary, y.toolSummary) && SameText(x.binary, y.binary))
  }

  lemma FieldsNoSep(r: Rules, x: Inputs)
    requires Separable(x)
    ensures forall t :: t in Fields(r, x) ==> NoSep(t)
  {
    SizeTextInjective(x.accessSize, None);
    SizeTextInjective(x.allocSize, None);
    SizeTextInjective(x.allocOffset, None);
    forall c | c in Ascii("native_memory_identity") ensures c != 0x1f {
    }
  }

  /** Inputs without separators have the same preimage exactly when they are the same issue. */
  lemma PreimageIsIssue(r: Rules, x: Inputs, y: Inputs)
    requires Separable(x) && Separable(y)
    ensures Join(Fields(r, x)) == Join(Fields(r, y)) <==> SameIssue(r, x, y)
  {
    FieldsNoSep(r, x);
    FieldsNoSep(r, y);
    JoinInjective(Fields(r, x), Fields(r, y));
    FieldsAreIssue(r, x, y);
  }

  /** The same issue always has one fingerprint, whatever its texts hold. */
  lemma SameIssueSameFingerprint(r: Rules, x: Inputs, y: Inputs)
    requires SameIssue(r, x, y)
    ensures Fingerprint(r, x) == Fingerprint(r, y)
  {
    FieldsAreIssue(r, x, y);
  }

  lemma FieldsAreIssue(r: Rules, x: Inputs, y: Inputs)
    ensures Fields(r, x) == Fields(r, y) <==> SameIssue(r, x, y)
  {
    SizeTextInjective(x.accessSize, y.accessSize);
    SizeTextInjective(x.allocSize, y.allocSize);
    SizeTextInjective(x.allocOffset, y.allocOffset);
    FieldList(r, x);
    FieldList(r, y);
    if Fields(r, x) == Fields(r, y) {
      FieldsTellIssue(r, x, y, Fields(r, x));
    } else if SameIssue(r, x, y) {
      IssueGivesFields(r, x, y);
    }
  }

  lemma FieldsTellIssue(r: Rules, x: Inputs, y: Inputs, a: seq<Text>)
    requires ListsFields(r, x, a) && ListsFields(r, y, a)
    requires SizeText(x.accessSize) == SizeText(y.accessSize) <==> x.accessSize == y.accessSize
    requires SizeText(x.allocSize) == SizeText(y.allocSize) <==> x.allocSize == y.allocSize
    requires SizeText(x.allocOffset) == SizeText(y.allocOffset) <==> x.allocOffset == y.allocOffset
    ensures SameIssue(r, x, y)
  {
  }

  lemma IssueGivesFields(r: Rules, x: Inputs, y: Inputs)
    requires SameIssue(r, x, y)
    ensures Fields(r, x) == Fields(r, y)
  {
    assert NativeIdentity(r, x) <==> NativeIdentity(r, y);
  }

  /** The fields, one by one. */
  predicate ListsFields(r: Rules, x: Inputs, a: seq<Text>) {
    && |a| == (if NativeIdentity(r, x) then 11 else if x.tool.Some? then 12 else 9)
    && a[0] == x.cls && a[1] == x.operation
    && a[6] == SizeText(x.accessSize) && a[7] == SizeText(x.allocSize) && a[8] == SizeText(x.allocOffset)
    && (NativeIdentity(r, x) ==> a[2] == a[3] == a[4] == a[5] == [] && a[10] == GetOr(x.binary, []))
    && (!NativeIdentity(r, x) ==>
          && a[2] == GetOr(x.sourcePath, []) && a[3] == GetOr(x.callSite, []) && a[4] == GetOr(x.allocSite, [])
          && a[5] == GetOr(x.freeSite, []))
    && (x.tool.Some? ==> a[9] == x.tool.value && a[10] == GetOr(x.toolSummary, []) && a[11] == GetOr(x.binary, []))
  }

  lemma FieldList(r: Rules, x: Inputs)
    ensures ListsFields(r, x, Fields(r, x))
  {
  }

  /** A separator inside a text can move a field's end: two issues with one preimage. */
  lemma SeparatorBlurs(r: Rules, x: Inputs)
    requires !r.stable([])
    ensures var y, z := x.(cls := [0x1f], operation := []), x.(cls := [], operation := [0x1f]);
      !SameIssue(r, y, z) && Fingerprint(r, y) == Fingerprint(r, z)
  {
    var y, z := x.(cls := [0x1f], operation := []), x.(cls := [], operation := [0x1f]);
    var rest := Fields(r, y)[2..];
    assert Fields(r, z)[2..] == rest;
    assert Fields(r, y) == [[0x1f], []] + rest && Fields(r, z) == [[], [0x1f]] + rest;
    JoinTwo([0x1f], [], rest);
    JoinTwo([], [0x1f], rest);
    assert [0x1f] + SEP + [] + SEP + Join(rest) == [] + SEP + [0x1f] + SEP + Join(rest);
  }

  lemma JoinTwo(a: Text, b: Text, rest: seq<Text>)
    requires rest != []
    ensures Join([a, b] + rest) == a + SEP + b + SEP + Join(rest)
  {
    assert ([a, b] + rest)[1..] == [b] + rest && ([b] + rest)[1..] == rest;
    assert a + SEP + (b + SEP + Join(rest)) == a + SEP + b + SEP + Join(rest);
  }

  // ----- one byte apart -----

  /** Inputs whose fields differ in one byte of one field never share a fingerprint. */
  lemma FieldOneByteApart(r: Rules, x: Inputs, y: Inputs, fields: seq<Text>, k: nat,
                          head: Text, a: byte, b: byte, tail: Text)
    requires k < |fields| && a != b
    requires Fields(r, x) == fields[k := head + [a] + tail] && Fields(r, y) == fields[k := head + [b] + tail]
    ensures Fingerprint(r, x) != Fingerprint(r, y)
  {
    var h, t := FieldInJoin(fields, k);
    assert h + (head + [a] + tail) + t == (h + head) + [a] + (tail + t);
    assert h + (head + [b] + tail) + t == (h + head) + [b] + (tail + t);
    OneByteApartNeverGrouped(r, x, y, h + head, a, b, tail + t);
  }

  lemma PutSource(r: Rules, x: Inputs, p: Text)
    requires !NativeIdentity(r, x)
    ensures Fields(r, x.(sourcePath := Some(p))) == Fields(r, x)[2 := p]
    ensures Fields(r, x.(callSite := Some(p))) == Fields(r, x)[3 := p]
  {
  }

  lemma PutHeapSite(r: Rules, x: Inputs, p: Text)
    requires !NativeIdentity(r, x)
    ensures Fields(r, x.(allocSite := Some(p))) == Fields(r, x)[4 := p]
    ensures Fields(r, x.(freeSite := Some(p))) == Fields(r, x)[5 := p]
  {
  }

  lemma PutTool(r: Rules, x: Inputs, p: Text)
    requires x.tool.Some?
    ensures |Fields(r, x)| == 12
    ensures Fields(r, x.(tool := Some(p))) == Fields(r, x)[9 := p]
    ensures Fields(r, x.(toolSummary := Some(p))) == Fields(r, x)[10 := p]
    ensures Fields(r, x.(binary := Some(p))) == Fields(r, x)[11 := p]
  {
  }

  /** Outside the native identity, one byte more or less in the source path or a site tells
      two issues apart; with a tool, so does one byte of its name, its summary or the binary. */
  lemma SitesOneByteApart(r: Rules, x: Inputs, head: Text, a: byte, b: byte, tail: Text)
    requires !NativeIdentity(r, x) && a != b
    ensures var p, q := Some(head + [a] + tail), Some(head + [b] + tail);
      && Fingerprint(r, x.(sourcePath := p)) != Fingerprint(r, x.(sourcePath := q))
      && Fingerprint(r, x.(callSite := p)) != Fingerprint(r, x.(callSite := q))
      && Fingerprint(r, x.(allocSite := p)) != Fingerprint(r, x.(allocSite := q))
      && Fingerprint(r, x.(freeSite := p)) != Fingerprint(r, x.(freeSite := q))
  {
    var p, q, fields := Some(head + [a] + tail), Some(head + [b] + tail), Fields(r, x);
    PutSource(r, x, p.value);
    PutSource(r, x, q.value);
    PutHeapSite(r, x, p.value);
    PutHeapSite(r, x, q.value);
    FieldOneByteApart(r, x.(sourcePath := p), x.(sourcePath := q), fields, 2, head, a, b, tail);
    FieldOneByteApart(r, x.(callSite := p), x.(callSite := q), fields, 3, head, a, b, tail);
    FieldOneByteApart(r, x.(allocSite := p), x.(allocSite := q), fields, 4, head, a, b, tail);
    FieldOneByteApart(r, x.(freeSite := p), x.(freeSite := q), fields, 5, head, a, b, tail);
  }

  lemma ToolOneByteApart(r: Rules, x: Inputs, head: Text, a: byte, b: byte, tail: Text)
    requires x.tool.Some? && a != b
    ensures var p, q := Some(head + [a] + tail), Some(head + [b] + tail);
      && Fingerprint(r, x.(tool := p)) != Fingerprint(r, x.(tool := q))
      && Fingerprint(r, x.(toolSummary := p)) != Fingerprint(r, x.(toolSummary := q))
      && Fingerprint(r, x.(binary := p)) != Fingerprint(r, x.(binary := q))
  {
    var p, q, fields := Some(head + [a] + tail), Some(head + [b] + tail), Fields(r, x);
    PutTool(r, x, p.value);
    PutTool(r, x, q.value);
    FieldOneByteApart(r, x.(tool := p), x.(tool := q), fields, 9, head, a, b, tail);
    FieldOneByteApart(r, x.(toolSummary := p), x.(toolSummary := q), fields, 10, head, a, b, tail);
    FieldOneByteApart(r, x.(binary := p), x.(binary := q), fields, 11, head, a, b, tail);
  }

  /** Two findings alike but for one byte of the call site are in no common group. */
  lemma CallSitesOneByteApart(r: Rules, fs: seq<Value>, groups: seq<Group>, i: nat, j: nat,
                              head: Text, a: byte, b: byte, tail: Text)
    requires Report(r, fs, groups) && i < |fs| && j < |fs| && a != b && !NativeIdentity(r, InputsOf(r, fs[i]))
    requires InputsOf(r, fs[i]).callSite == Some(head + [a] + tail)
    requires InputsOf(r, fs[j]) == InputsOf(r, fs[i]).(callSite := Some(head + [b] + tail))
    ensures forall k: nat :: k < |groups| ==> !(i in groups[k].indices && j in groups[k].indices)
  {
    SitesOneByteApart(r, InputsOf(r, fs[i]), head, a, b, tail);
    forall k: nat | k < |groups| ensures !(i in groups[k].indices && j in groups[k].indices) {
      GroupListsItsFindings(r, fs, groups, k);
    }
  }

  // ----- the text of a fingerprint -----

  function HexValue(c: byte): nat {
    if 97 <= c <= 102 then c - 87 else if 48 <= c <= 57 then c - 48 else 0
  }

  function ReadHex(t: Text): nat {
    if t == [] then 0 else 16 * ReadHex(t[..|t| - 1]) + HexValue(t[|t| - 1])
  }

  /** Sixteen lower-case hexadecimal digits, most significant first. */
  lemma {:induction false} HexReadsBack(n: nat, digits: nat)
    requires n < Pow16(digits)
    ensures ReadHex(Hex(n, digits)) == n && forall c :: c in Hex(n, digits) ==> 48 <= c <= 57 || 97 <= c <= 102
  {
    if digits > 0 {
      HexReadsBack(n / 16, digits - 1);
      assert Hex(n, digits)[..digits - 1] == Hex(n / 16, digits - 1);
    }
  }

  lemma DashStep(s: Text, c: byte)
    ensures AfterLastDash(s + [c]) == if c == 45 then [] else AfterLastDash(s) + [c]
  {
    assert (s + [c])[..|s + [c]| - 1] == s;
  }

  lemma {:induction false} AfterTheDash(a: Text, b: Text)
    requires 45 !in b
    ensures AfterLastDash(a + [45] + b) == b
    decreases |b|
  {
    if b == [] {
      DashStep(a, 45);
      assert a + [45] + b == a + [45];
    } else {
      var front, last := b[..|b| - 1], b[|b| - 1];
      AfterTheDash(a, front);
      DashStep(a + [45] + front, last);
      assert a + [45] + b == (a + [45] + front) + [last];
    }
  }

  const PREFIX: Text := [114, 101, 45, 105, 115, 115, 117, 101, 45, 118, 49]

  lemma PrefixText()
    ensures Ascii("re-issue-v1-") == PREFIX + [45]
  {
  }

  /** Of a prefix, a dash and sixteen digits. */
  lemma PartsOf(hex: Text)
    requires |hex| == 16 && 45 !in hex
    ensures var fp := PREFIX + [45] + hex;
      && |fp| == 28 && fp[..12] == PREFIX + [45] && fp[12..] == hex && fp[12..24] == hex[..12]
      && AfterLastDash(fp) == hex
  {
    var fp := PREFIX + [45] + hex;
    AfterTheDash(PREFIX, hex);
    assert fp[12..] == hex;
    assert fp[12..24] == fp[12..][..12];
  }

  /** A fingerprint is "re-issue-v1-" and the hash in sixteen digits; its group's id is "IG-"
      and the first twelve of them. */
  lemma FingerprintText(r: Rules, x: Inputs)
    ensures var fp, hash := Fingerprint(r, x), Fnv1a64(Join(Fields(r, x)));
      && |fp| == 28 && fp[..12] == [114, 101, 45, 105, 115, 115, 117, 101, 45, 118, 49, 45]
      && (forall c :: c in fp[12..] ==> 48 <= c <= 57 || 97 <= c <= 102)
      && ReadHex(fp[12..]) == hash
      && GroupId(fp) == [73, 71, 45] + fp[12..24]
      && RepeatGroups.GroupId(fp) == [82, 73, 71, 45] + fp[12..24]
  {
    var hex := Hex(Fnv1a64(Join(Fields(r, x))), 16);
    SixteenDigits();
    HexReadsBack(Fnv1a64(Join(Fields(r, x))), 16);
    PrefixText();
    PartsOf(hex);
    GroupIds(Fingerprint(r, x), hex);
  }

  lemma GroupIds(fp: Text, suffix: Text)
    requires AfterLastDash(fp) == suffix && |suffix| >= 12
    ensures GroupId(fp) == [73, 71, 45] + suffix[..12] && RepeatGroups.GroupId(fp) == [82, 73, 71, 45] + suffix[..12]
  {
    assert Ascii("IG-") == [73, 71, 45] && Ascii("RIG-") == [82, 73, 71, 45];
  }

  /** Annotation writes the fingerprint and the group id, and nothing else. */
  lemma AnnotationWrites(r: Rules, f: Value)
    requires f.Object?
    ensures var g := Annotated(r, f);
      && Field(g, "fingerprint") == Some(Str(FingerprintOf(r, f)))
      && Field(g, "issue_group_id") == Some(Str(GroupId(FingerprintOf(r, f))))
      && forall key :: key != "fingerprint" && key != "issue_group_id" ==> Field(g, key) == Field(f, key)
  {
  }

  /** A finding without an id is listed as "finding-" and its number, counted from one. */
  lemma FindingIdText(f: Value, index: nat)
    ensures StringAt(f, ["id"]).Some? ==> FindingId(f, index) == StringAt(f, ["id"]).value
    ensures StringAt(f, ["id"]).None? ==>
      var id := FindingId(f, index);
      && |id| > 8 && id[..8] == [102, 105, 110, 100, 105, 110, 103, 45] && ReadDecimal(id[8..]) == index + 1
  {
    DecimalReadsBack(index + 1);
    assert Ascii("finding-") == [102, 105, 110, 100, 105, 110, 103, 45];
  }
}
