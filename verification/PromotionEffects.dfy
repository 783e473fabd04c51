/** What a promotion takes from the results and what it adds, with the texts written out. */
module PromotionEffects {
  import opened Words
  import opened Grouping
  import opened Separators
  import opened IssueGroups
  import opened Promotion
  import opened PromotionLaws
  import Preimages

  // ----- which detections are taken -----

  /** Detection `j` of a confirmed success of a tool other than gdb with a class detected. */
  predicate Takes(res: Result, it: Item, j: int) {
    && res.tool != [103, 100, 98] && res.success && res.confirmed && |res.detected| > 0
    && 0 <= j < |res.detections| && it == Item(res, j, res.detections[j])
  }

  lemma ItemsOfAre(res: Result, it: Item)
    ensures it in ItemsOf(res) <==> Takes(res, it, it.index)
  {
    assert Ascii("gdb") == [103, 100, 98];
    if Takes(res, it, it.index) {
      assert ItemsOf(res)[it.index] == it;
    }
  }

  /** Promotion takes every such detection of every result, and nothing else. */
  lemma {:induction false} AllItemsAre(results: seq<Result>, it: Item)
    ensures it in AllItems(results) <==> exists i :: 0 <= i < |results| && Takes(results[i], it, it.index)
  {
    if results != [] {
      var before, last := results[..|results| - 1], results[|results| - 1];
      AllItemsAre(before, it);
      ItemsOfAre(last, it);
      if exists i :: 0 <= i < |before| && Takes(before[i], it, it.index) {
        var i :| 0 <= i < |before| && Takes(before[i], it, it.index);
        assert Takes(results[i], it, it.index);
      }
    }
  }

  // ----- when one is the same as another -----

  /** Keys without separators in their parts are equal exactly where the tool, the class, the
      summary and the written line and frames are. */
  lemma SameKeyIff(x: Texts, a: Item, b: Item)
    requires Legible(x, a) && Legible(x, b)
    ensures var d, e := a.detection, b.detection;
      ItemKey(x, a) == ItemKey(x, b) <==>
        && a.result.tool == b.result.tool && d.cls == e.cls && d.summary == e.summary
        && x.debugLine(d.line) == x.debugLine(e.line) && x.debugFrame(d.callFrame) == x.debugFrame(e.callFrame)
        && x.debugFrame(d.allocFrame) == x.debugFrame(e.allocFrame)
        && x.debugFrame(d.freeFrame) == x.debugFrame(e.freeFrame)
  {
    if ItemKey(x, a) == ItemKey(x, b) {
      KeyTellsParts(x, a, b, a.detection, b.detection);
    }
  }

  function OrDefault(t: Option<Text>, d: Text): Text {
    if t.Some? then t.value else d
  }

  /** A finding makes known the key of its tool, class and message, "tool-backed finding" where
      it has none, its line where that is a size, and its three frames. */
  lemma FindingMakesKnown(x: Texts, fs: seq<Value>, f: Value, tool: Text, cls: Text)
    requires f in fs && Get(f, ["evidence", "tool", "name"]) == Some(Str(tool))
    requires Get(f, ["class"]) == Some(Str(cls)) || (Get(f, ["class"]).None? && Get(f, ["kind"]) == Some(Str(cls)))
    ensures DetectionKey(x, tool, Detection(
        cls,
        OrDefault(StringAt(f, ["message"]),
                  [116, 111, 111, 108, 45, 98, 97, 99, 107, 101, 100, 32, 102, 105, 110, 100, 105, 110, 103]),
        LineOf(f), StringAt(f, ["evidence", "tool", "call_frame"]), StringAt(f, ["evidence", "tool", "alloc_frame"]),
        StringAt(f, ["evidence", "tool", "free_frame"]))) in ExistingKeys(x, fs)
    ensures forall n: u64 :: Get(f, ["evidence", "tool", "line"]) == Some(Number(n)) ==> LineOf(f) == Some(n)
  {
    assert Ascii("tool-backed finding") ==
      [116, 111, 111, 108, 45, 98, 97, 99, 107, 101, 100, 32, 102, 105, 110, 100, 105, 110, 103];
    assert ReadKey(x, f).Some?;
  }

  /** The finding is there: under the id the result names, with the class detected. */
  predicate Names(f: Value, res: Result, cls: Text) {
    && Get(f, ["id"]) == Some(Str(res.findingId))
    && (Get(f, ["class"]) == Some(Str(cls)) || (Get(f, ["class"]).None? && Get(f, ["kind"]) == Some(Str(cls))))
  }

  lemma ClassRead(f: Value, res: Result, d: Detection)
    ensures Confirms(f, res, d) <==> Names(f, res, d.cls)
  {
  }

  /** One detection adds one finding at the end, unless its key is known or the result is
      about a native finding ("clean-run" and "tool-only-fallback" are not) that has the class. */
  lemma OneDetection(x: Texts, p: Pack, it: Item)
    ensures var known := ItemKey(x, it) in p.known;
      var named :=
        && it.result.findingId != [99, 108, 101, 97, 110, 45, 114, 117, 110]
        && it.result.findingId !=
             [116, 111, 111, 108, 45, 111, 110, 108, 121, 45, 102, 97, 108, 108, 98, 97, 99, 107]
        && exists f :: f in p.findings && Names(f, it.result, it.detection.cls);
      PromoteItem(x, p, it) ==
        if known || named then p else Pack(p.findings + [ItemFinding(x, it)], p.known + {ItemKey(x, it)})
  {
    UntiedTexts();
    forall f ensures Confirms(f, it.result, it.detection) <==> Names(f, it.result, it.detection.cls) {
      ClassRead(f, it.result, it.detection);
    }
  }

  lemma UntiedTexts()
    ensures Ascii("clean-run") == [99, 108, 101, 97, 110, 45, 114, 117, 110]
    ensures Ascii("tool-only-fallback") ==
      [116, 111, 111, 108, 45, 111, 110, 108, 121, 45, 102, 97, 108, 108, 98, 97, 99, 107]
  {
  }

  // ----- the finding added -----

  lemma TopReads(x: Texts, it: Item, key: string)
    ensures Get(ItemFinding(x, it), [key]) == Field(ItemFinding(x, it), key)
  {
    GetField(ItemFinding(x, it), key, []);
  }

  /** It names the tool as its origin, with the class and the trimmed summary. */
  lemma AddedFinding(x: Texts, it: Item)
    ensures var f := ItemFinding(x, it);
      && StringAt(f, ["id"]) == Some(PromotedId(it.result, it.detection, it.index))
      && StringAt(f, ["origin"]) == Some(it.result.tool)
      && StringAt(f, ["class"]) == Some(it.detection.cls)
      && StringAt(f, ["message"]) == Some(x.trim(it.detection.summary))
  {
    TopReads(x, it, "id");
    TopReads(x, it, "origin");
    TopReads(x, it, "class");
    TopReads(x, it, "message");
  }

  /** Its tool section names the result and the finding the result was about. */
  lemma AddedSection(x: Texts, it: Item)
    ensures var f := ItemFinding(x, it);
      && StringAt(f, ["evidence", "tool", "name"]) == Some(it.result.tool)
      && StringAt(f, ["evidence", "tool", "result_id"]) == Some(it.result.id)
      && StringAt(f, ["evidence", "tool", "finding_id"]) == Some(it.result.findingId)
      && StringAt(f, ["evidence", "tool", "summary"]) == Some(x.trim(it.detection.summary))
  {
    ToolReads(x, it, "name");
    ToolReads(x, it, "result_id");
    ToolReads(x, it, "finding_id");
    ToolReads(x, it, "summary");
  }

  /** Its id is "F-", the tool, the class, the result's id and the number of the detection,
      counted from one. */
  lemma AddedId(res: Result, d: Detection, index: nat)
    ensures var id := PromotedId(res, d, index);
      var head := [70, 45] + res.tool + [45] + d.cls + [45] + res.id + [45];
      head <= id && Preimages.ReadDecimal(id[|head|..]) == index + 1
  {
    var head := [70, 45] + res.tool + [45] + d.cls + [45] + res.id + [45];
    assert Ascii("F-") == [70, 45];
    Preimages.DecimalReadsBack(index + 1);
    assert PromotedId(res, d, index) == head + Decimal(index + 1);
  }

  /** Detections of one result and class get different ids. */
  lemma AddedIdsDiffer(res: Result, d: Detection, e: Detection, i: nat, j: nat)
    requires d.cls == e.cls && i != j
    ensures PromotedId(res, d, i) != PromotedId(res, e, j)
  {
    AddedId(res, d, i);
    AddedId(res, e, j);
  }

  // ----- provenance -----

  function Either(v: Option<Value>, t: Text): Option<Value> {
    if v.Some? then v else Some(Str(t))
  }

  /** The provenance of a finding is written, and nothing else of it. */
  lemma ProvenanceOnly(bin: Binary, f: Value)
    requires f.Object?
    ensures var g := WithProvenance(bin, f);
      && Field(g, "provenance") == Some(Object(Provenance(bin, f)))
      && forall key :: key != "provenance" ==> Field(g, key) == Field(f, key)
  {
  }

  /** In it, the paths of the binary are set where they were not. */
  lemma ProvenancePaths(bin: Binary, f: Value)
    requires f.Object?
    ensures var before := if "provenance" in f.fields then f.fields["provenance"] else Null;
      var after := Object(Provenance(bin, f));
      && Field(after, "binary_path") == Either(Field(before, "binary_path"), bin.copied)
      && Field(after, "original_binary_path") == Either(Field(before, "original_binary_path"), bin.original)
  {
  }

  /** The source path too, if one is found; whether it is overrides an earlier answer only if
      it is. */
  lemma ProvenanceSource(bin: Binary, f: Value)
    requires f.Object?
    ensures var before := if "provenance" in f.fields then f.fields["provenance"] else Null;
      var after, found := Object(Provenance(bin, f)), bin.source(Field(f, "evidence"), Field(f, "primaryLocation"));
      && Field(after, "source_path") ==
           (if found.Some? then Either(Field(before, "source_path"), found.value) else Field(before, "source_path"))
      && Field(after, "source_status") ==
           (if found.Some? then Some(Str(Ascii("resolved")))
            else Either(Field(before, "source_status"), Ascii("unresolved")))
  {
  }

  lemma AnnotatedFingerprint(r: Rules, h: Value)
    ensures FingerprintOf(r, Annotated(r, h)) == FingerprintOf(r, h)
  {
    AnnotationKeepsEntry(r, h, 0);
  }

  /** The fingerprint and the group written into a finding are those of the finding as written. */
  lemma WrittenFingerprint(r: Rules, bin: Binary, f: Value)
    requires f.Object?
    ensures var g := Finalized(r, bin, f);
      && Field(g, "fingerprint") == Some(Str(FingerprintOf(r, g)))
      && Field(g, "issue_group_id") == Some(Str(GroupId(FingerprintOf(r, g))))
  {
    AnnotatedFingerprint(r, WithProvenance(bin, f));
    Preimages.AnnotationWrites(r, WithProvenance(bin, f));
  }
}
