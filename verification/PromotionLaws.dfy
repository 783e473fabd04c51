/** What promotion keeps over reloads of the findings it has written. */
module PromotionLaws {
  import opened Words
  import opened Grouping
  import opened Separators
  import opened IssueGroups
  import opened Promotion

  // ----- keys survive the round trip through JSON -----

  function Trimmed(x: Texts, d: Detection): Detection {
    d.(summary := x.trim(d.summary))
  }

  lemma DetectionReadsBack(x: Texts, it: Item)
    ensures ReadDetection(ItemFinding(x, it)) == Some(Trimmed(x, it.detection))
  {
    GetField(ItemFinding(x, it), "class", []);
    GetField(ItemFinding(x, it), "message", []);
    ToolReads(x, it, "line");
    ToolReads(x, it, "call_frame");
    ToolReads(x, it, "alloc_frame");
    ToolReads(x, it, "free_frame");
  }

  /** A promoted finding reads back as its own detection, with the summary trimmed. */
  lemma ReadsBack(x: Texts, it: Item)
    ensures ReadKey(x, ItemFinding(x, it)) == Some(DetectionKey(x, it.result.tool, Trimmed(x, it.detection)))
  {
    ToolReads(x, it, "name");
    DetectionReadsBack(x, it);
  }

  lemma ToolReads(x: Texts, it: Item, field: string)
    requires field in ToolSection(x, it.result, it.detection)
    ensures Get(ItemFinding(x, it), ["evidence", "tool", field]) == Some(ToolSection(x, it.result, it.detection)[field])
  {
    var f := ItemFinding(x, it);
    var evidence := f.fields["evidence"];
    GetField(f, "evidence", ["tool", field]);
    GetField(evidence, "tool", [field]);
    GetField(evidence.fields["tool"], field, []);
    assert ["evidence", "tool", field] == ["evidence"] + ["tool", field] && ["tool", field] == ["tool"] + [field];
  }

  predicate AllTrimmed(x: Texts, items: seq<Item>) {
    forall it :: it in items ==> x.trim(it.detection.summary) == it.detection.summary
  }

  lemma ExistingAppend(x: Texts, fs: seq<Value>, f: Value)
    ensures ExistingKeys(x, fs + [f]) ==
      ExistingKeys(x, fs) + (if ReadKey(x, f).Some? then {ReadKey(x, f).value} else {})
  {
    var keys := ExistingKeys(x, fs + [f]);
    forall k | k in keys ensures k in ExistingKeys(x, fs) || (ReadKey(x, f) == Some(k)) {
      var g :| g in fs + [f] && ReadKey(x, g) == Some(k);
      assert g in fs || g == f;
    }
    forall g | g in fs + [] || g == f ensures g in fs + [f] {
      assert (fs + [f])[|fs|] == f;
    }
  }

  /** With trimmed summaries, the keys kept in memory are the keys a reload would find. */
  lemma {:induction false} KnownKeysAreReloaded(x: Texts, fs: seq<Value>, items: seq<Item>)
    requires AllTrimmed(x, items)
    ensures PromoteItems(x, Loaded(x, fs), items) == Loaded(x, Promoted(x, fs, items))
  {
    if items != [] {
      var before, it := items[..|items| - 1], items[|items| - 1];
      KnownKeysAreReloaded(x, fs, before);
      assert it in items;
      ReadsBack(x, it);
      ExistingAppend(x, Promoted(x, fs, before), ItemFinding(x, it));
    }
  }

  /** Promoting a and then b gives the list that promoting both at once gives. */
  lemma PromotionComposes(x: Texts, fs: seq<Value>, a: seq<Item>, b: seq<Item>)
    requires AllTrimmed(x, a)
    ensures Promoted(x, Promoted(x, fs, a), b) == Promoted(x, fs, a + b)
  {
    KnownKeysAreReloaded(x, fs, a);
    PromoteConcat(x, Loaded(x, fs), a, b);
  }

  // ----- promoting again -----

  predicate Settled(x: Texts, p: Pack, it: Item) {
    ConfirmsExisting(p.findings, it.result, it.detection) || ItemKey(x, it) in p.known
  }

  lemma SettledStays(x: Texts, p: Pack, it: Item, items: seq<Item>)
    requires Settled(x, p, it)
    ensures Settled(x, PromoteItems(x, p, items), it)
  {
    PromotionAppends(x, p, items);
    var fs' := PromoteItems(x, p, items).findings;
    forall f | f in p.findings ensures f in fs' {
      var i :| 0 <= i < |p.findings| && p.findings[i] == f;
      assert fs'[i] == f;
    }
  }

  lemma {:induction false} AllSettledAfter(x: Texts, p: Pack, items: seq<Item>)
    ensures forall it :: it in items ==> Settled(x, PromoteItems(x, p, items), it)
  {
    if items != [] {
      var before, last := items[..|items| - 1], items[|items| - 1];
      AllSettledAfter(x, p, before);
      var mid := PromoteItems(x, p, before);
      forall it | it in items ensures Settled(x, PromoteItems(x, p, items), it) {
        if it in before {
          SettledStays(x, mid, it, [last]);
          PromoteConcat(x, p, before, [last]);
          assert items == before + [last];
        } else {
          assert it == last;
        }
      }
    }
  }

  /** Nothing is added exactly when every detection is confirmed or known already. */
  lemma {:induction false} AddsNothingIff(x: Texts, p: Pack, items: seq<Item>)
    ensures PromoteItems(x, p, items) == p <==> forall it :: it in items ==> Settled(x, p, it)
  {
    if items != [] {
      var before, last := items[..|items| - 1], items[|items| - 1];
      var mid := PromoteItems(x, p, before);
      AddsNothingIff(x, p, before);
      PromotionAppends(x, p, before);
      AddsWhenLonger(x, p, before);
      assert items == before + [last];
      assert forall it :: it in items <==> it in before || it == last;
      assert PromoteItems(x, p, items) == PromoteItem(x, mid, last);
      if PromoteItems(x, p, items) == p {
        assert |mid.findings| == |p.findings|;
        assert |PromoteItem(x, p, last).findings| == |p.findings|;
        assert Settled(x, p, last);
      } else if mid == p {
        assert !Settled(x, p, last);
      }
    }
  }

  lemma {:induction false} AddsWhenLonger(x: Texts, p: Pack, items: seq<Item>)
    ensures |PromoteItems(x, p, items).findings| == |p.findings| ==> PromoteItems(x, p, items) == p
  {
    if items != [] {
      AddsWhenLonger(x, p, items[..|items| - 1]);
      PromotionAppends(x, p, items[..|items| - 1]);
    }
  }

  /** Promoting the same results twice adds nothing the second time. */
  lemma PromotionIdempotent(x: Texts, fs: seq<Value>, items: seq<Item>)
    requires AllTrimmed(x, items)
    ensures Promoted(x, Promoted(x, fs, items), items) == Promoted(x, fs, items)
  {
    KnownKeysAreReloaded(x, fs, items);
    AllSettledAfter(x, Loaded(x, fs), items);
    AddsNothingIff(x, Loaded(x, Promoted(x, fs, items)), items);
  }

  // ----- when promoting again adds nothing -----

  /** The items of a promotion that add a finding. */
  function Added(x: Texts, p: Pack, items: seq<Item>): seq<Item> {
    if items == [] then []
    else
      var before, last := items[..|items| - 1], items[|items| - 1];
      Added(x, p, before) + if Settled(x, PromoteItems(x, p, before), last) then [] else [last]
  }

  /** The key under which a reload finds the finding of an item. */
  function ReloadKey(x: Texts, it: Item): Text {
    DetectionKey(x, it.result.tool, Trimmed(x, it.detection))
  }

  function ItemKeys(x: Texts, items: seq<Item>): set<Text> {
    set a | a in items :: ItemKey(x, a)
  }

  function ReloadKeys(x: Texts, items: seq<Item>): set<Text> {
    set a | a in items :: ReloadKey(x, a)
  }

  lemma KeysOneMore(x: Texts, items: seq<Item>, last: Item)
    ensures ItemKeys(x, items + [last]) == ItemKeys(x, items) + {ItemKey(x, last)}
    ensures ReloadKeys(x, items + [last]) == ReloadKeys(x, items) + {ReloadKey(x, last)}
  {
    assert forall a :: a in items + [last] <==> a in items || a == last;
  }

  lemma UnionAssociative(a: set<Text>, b: set<Text>, k: Text)
    ensures a + (b + {k}) == (a + b) + {k}
  {
  }

  lemma KeysStep(x: Texts, p: Pack, f: Value, it: Item, keys: set<Text>, added: seq<Item>)
    requires p.known == keys + ItemKeys(x, added) && ExistingKeys(x, p.findings) == keys + ReloadKeys(x, added)
    requires ReadKey(x, f) == Some(ReloadKey(x, it))
    ensures p.known + {ItemKey(x, it)} == keys + ItemKeys(x, added + [it])
    ensures ExistingKeys(x, p.findings + [f]) == keys + ReloadKeys(x, added + [it])
  {
    ExistingAppend(x, p.findings, f);
    KeysOneMore(x, added, it);
    UnionAssociative(keys, ItemKeys(x, added), ItemKey(x, it));
    UnionAssociative(keys, ReloadKeys(x, added), ReloadKey(x, it));
  }

  /** Memory holds the keys as detected, a reload finds them trimmed. */
  lemma {:induction false} KeysOfAdded(x: Texts, fs: seq<Value>, items: seq<Item>)
    ensures var p, added := PromoteItems(x, Loaded(x, fs), items), Added(x, Loaded(x, fs), items);
      && p.known == ExistingKeys(x, fs) + ItemKeys(x, added)
      && ExistingKeys(x, p.findings) == ExistingKeys(x, fs) + ReloadKeys(x, added)
  {
    if items == [] {
      assert ItemKeys(x, []) == {} && ReloadKeys(x, []) == {};
    } else {
      var before, last := items[..|items| - 1], items[|items| - 1];
      KeysOfAdded(x, fs, before);
      var mid := PromoteItems(x, Loaded(x, fs), before);
      if Settled(x, mid, last) {
        assert Added(x, Loaded(x, fs), items) == Added(x, Loaded(x, fs), before) + [];
      } else {
        ReadsBack(x, last);
        KeysStep(x, mid, ItemFinding(x, last), last, ExistingKeys(x, fs), Added(x, Loaded(x, fs), before));
      }
    }
  }

  lemma {:induction false} AddedAreItems(x: Texts, p: Pack, items: seq<Item>)
    ensures forall a :: a in Added(x, p, items) ==> a in items
  {
    if items != [] {
      AddedAreItems(x, p, items[..|items| - 1]);
    }
  }

  /** A second promotion of the same results, after a reload, finds nothing to add. */
  ghost predicate Stable(x: Texts, fs: seq<Value>, items: seq<Item>) {
    Promoted(x, Promoted(x, fs, items), items) == Promoted(x, fs, items)
  }

  lemma StableIffSettled(x: Texts, fs: seq<Value>, items: seq<Item>)
    ensures var fs' := Promoted(x, fs, items);
      Stable(x, fs, items) <==> forall it :: it in items ==> Settled(x, Loaded(x, fs'), it)
  {
    var p := Loaded(x, Promoted(x, fs, items));
    AddsNothingIff(x, p, items);
    AddsWhenLonger(x, p, items);
  }

  /** For every list: promoting again adds nothing exactly when each detection is confirmed
      by the findings, was known before, or has the key under which a reload finds some
      finding the promotion added. */
  lemma StableIff(x: Texts, fs: seq<Value>, items: seq<Item>)
    ensures var fs', added := Promoted(x, fs, items), Added(x, Loaded(x, fs), items);
      Stable(x, fs, items) <==> forall it :: it in items ==>
        || ConfirmsExisting(fs', it.result, it.detection)
        || ItemKey(x, it) in ExistingKeys(x, fs)
        || exists a :: a in added && ReloadKey(x, a) == ItemKey(x, it)
  {
    StableIffSettled(x, fs, items);
    KeysOfAdded(x, fs, items);
    forall it | it in items
      ensures ItemKey(x, it) in ReloadKeys(x, Added(x, Loaded(x, fs), items)) <==>
        exists a :: a in Added(x, Loaded(x, fs), items) && ReloadKey(x, a) == ItemKey(x, it)
    {
    }
  }

  /** No part of the key but the summary holds a separator, and trimming twice is trimming once. */
  predicate Legible(x: Texts, it: Item) {
    var d := it.detection;
    && NoSep(it.result.tool) && NoSep(d.cls) && NoSep(x.debugLine(d.line)) && NoSep(x.debugFrame(d.callFrame))
    && NoSep(x.debugFrame(d.allocFrame)) && NoSep(x.debugFrame(d.freeFrame))
    && x.trim(x.trim(d.summary)) == x.trim(d.summary)
  }

  function KeyHead(tool: Text, d: Detection): Text {
    tool + SEP + (d.cls + SEP + d.summary)
  }

  lemma KeyParts(x: Texts, tool: Text, d: Detection)
    ensures DetectionKey(x, tool, d) ==
      KeyHead(tool, d) + SEP + x.debugLine(d.line) + SEP + x.debugFrame(d.callFrame)
      + SEP + x.debugFrame(d.allocFrame) + SEP + x.debugFrame(d.freeFrame)
  {
    assert KeyHead(tool, d) == tool + SEP + d.cls + SEP + d.summary;
  }

  /** Legible keys tell their parts apart. */
  lemma KeyTellsParts(x: Texts, a: Item, b: Item, da: Detection, db: Detection)
    requires Legible(x, a) && Legible(x, b)
    requires da == a.detection.(summary := da.summary) && db == b.detection.(summary := db.summary)
    requires DetectionKey(x, a.result.tool, da) == DetectionKey(x, b.result.tool, db)
    ensures a.result.tool == b.result.tool && da.cls == db.cls && da.summary == db.summary
    ensures x.debugLine(da.line) == x.debugLine(db.line) && x.debugFrame(da.callFrame) == x.debugFrame(db.callFrame)
    ensures x.debugFrame(da.allocFrame) == x.debugFrame(db.allocFrame)
    ensures x.debugFrame(da.freeFrame) == x.debugFrame(db.freeFrame)
  {
    var ta, tb := a.result.tool, b.result.tool;
    KeyParts(x, ta, da);
    KeyParts(x, tb, db);
    var a1, b1 := KeyHead(ta, da), KeyHead(tb, db);
    var a2, b2 := a1 + SEP + x.debugLine(da.line), b1 + SEP + x.debugLine(db.line);
    var a3, b3 := a2 + SEP + x.debugFrame(da.callFrame), b2 + SEP + x.debugFrame(db.callFrame);
    var a4, b4 := a3 + SEP + x.debugFrame(da.allocFrame), b3 + SEP + x.debugFrame(db.allocFrame);
    LastSepSplits(a4, x.debugFrame(da.freeFrame), b4, x.debugFrame(db.freeFrame));
    LastSepSplits(a3, x.debugFrame(da.allocFrame), b3, x.debugFrame(db.allocFrame));
    LastSepSplits(a2, x.debugFrame(da.callFrame), b2, x.debugFrame(db.callFrame));
    LastSepSplits(a1, x.debugLine(da.line), b1, x.debugLine(db.line));
    FirstSepSplits(ta, da.cls + SEP + da.summary, tb, db.cls + SEP + db.summary);
    FirstSepSplits(da.cls, da.summary, db.cls, db.summary);
  }

  predicate NeedsNoTrim(x: Texts, it: Item) {
    x.trim(it.detection.summary) == it.detection.summary
  }

  lemma ReloadedMeansTrimmed(x: Texts, a: Item, it: Item)
    requires Legible(x, a) && Legible(x, it)
    ensures ReloadKey(x, a) == ItemKey(x, it) ==> NeedsNoTrim(x, it)
    ensures ItemKey(x, a) == ItemKey(x, it) && NeedsNoTrim(x, it) ==> ReloadKey(x, a) == ItemKey(x, it)
  {
    if ReloadKey(x, a) == ItemKey(x, it) {
      KeyTellsParts(x, a, it, Trimmed(x, a.detection), it.detection);
    }
    if ItemKey(x, a) == ItemKey(x, it) {
      KeyTellsParts(x, a, it, a.detection, it.detection);
    }
  }

  /** For legible detections: promoting again adds nothing exactly when each detection that
      is neither confirmed by the findings nor known before has a summary without blanks
      at its ends. */
  lemma StableIffTrimmed(x: Texts, fs: seq<Value>, items: seq<Item>)
    requires forall it :: it in items ==> Legible(x, it)
    ensures Stable(x, fs, items) <==> forall it :: it in items ==>
      || ConfirmsExisting(Promoted(x, fs, items), it.result, it.detection)
      || ItemKey(x, it) in ExistingKeys(x, fs)
      || NeedsNoTrim(x, it)
  {
    var added := Added(x, Loaded(x, fs), items);
    StableIff(x, fs, items);
    KeysOfAdded(x, fs, items);
    AddedAreItems(x, Loaded(x, fs), items);
    AllSettledAfter(x, Loaded(x, fs), items);
    forall it | it in items
      ensures (exists a :: a in added && ReloadKey(x, a) == ItemKey(x, it)) ==> NeedsNoTrim(x, it)
      ensures NeedsNoTrim(x, it) && (exists a :: a in added && ItemKey(x, a) == ItemKey(x, it)) ==>
        exists a :: a in added && ReloadKey(x, a) == ItemKey(x, it)
    {
      forall a | a in added
        ensures ReloadKey(x, a) == ItemKey(x, it) ==> NeedsNoTrim(x, it)
        ensures ItemKey(x, a) == ItemKey(x, it) && NeedsNoTrim(x, it) ==> ReloadKey(x, a) == ItemKey(x, it)
      {
        ReloadedMeansTrimmed(x, a, it);
      }
    }
  }

  lemma {:induction false} PromotedAreItems(x: Texts, p: Pack, items: seq<Item>)
    ensures forall f :: f in PromoteItems(x, p, items).findings ==>
      f in p.findings || exists a :: a in items && f == ItemFinding(x, a)
  {
    if items != [] {
      var before, last := items[..|items| - 1], items[|items| - 1];
      PromotedAreItems(x, p, before);
      forall f | f in PromoteItems(x, p, items).findings
        ensures f in p.findings || exists a :: a in items && f == ItemFinding(x, a)
      {
        if f !in PromoteItems(x, p, before).findings {
          assert f == ItemFinding(x, last) && last in items;
        }
      }
    }
  }

  /** The result names no finding the items would add. */
  predicate NamesNone(res: Result, items: seq<Item>) {
    forall a :: a in items ==> res.findingId != PromotedId(a.result, a.detection, a.index)
  }

  lemma ConfirmedBefore(x: Texts, fs: seq<Value>, items: seq<Item>, res: Result, d: Detection)
    requires NamesNone(res, items)
    ensures ConfirmsExisting(Promoted(x, fs, items), res, d) <==> ConfirmsExisting(fs, res, d)
  {
    PromotedAreItems(x, Loaded(x, fs), items);
    PromotionAppends(x, Loaded(x, fs), items);
    forall a | a in items ensures !Confirms(ItemFinding(x, a), res, d) {
      GetField(ItemFinding(x, a), "id", []);
    }
    if ConfirmsExisting(fs, res, d) {
      var f :| f in fs && Confirms(f, res, d);
      assert f in Promoted(x, fs, items);
    }
  }

  /** Where the results are about findings from before the promotion, as they are when it is
      made, the condition can be checked before it. */
  lemma StableIffTrimmedBefore(x: Texts, fs: seq<Value>, items: seq<Item>)
    requires forall it :: it in items ==> Legible(x, it) && NamesNone(it.result, items)
    ensures Stable(x, fs, items) <==> forall it :: it in items ==>
      || ConfirmsExisting(fs, it.result, it.detection)
      || ItemKey(x, it) in ExistingKeys(x, fs)
      || NeedsNoTrim(x, it)
  {
    StableIffTrimmed(x, fs, items);
    forall it | it in items
      ensures ConfirmsExisting(Promoted(x, fs, items), it.result, it.detection) <==>
        ConfirmsExisting(fs, it.result, it.detection)
    {
      ConfirmedBefore(x, fs, items, it.result, it.detection);
    }
  }

  /** A new detection that needs trimming and is not tied to a native finding is added again
      by every promotion after a reload. */
  lemma UntrimmedRepeats(x: Texts, fs: seq<Value>, it: Item)
    requires Untied(it.result) && ItemKey(x, it) !in ExistingKeys(x, fs) && ReloadKey(x, it) != ItemKey(x, it)
    ensures Promoted(x, fs, [it]) == fs + [ItemFinding(x, it)]
    ensures Promoted(x, Promoted(x, fs, [it]), [it]) == fs + [ItemFinding(x, it)] + [ItemFinding(x, it)]
  {
    var once := fs + [ItemFinding(x, it)];
    PromoteOne(x, Loaded(x, fs), it);
    ReadsBack(x, it);
    ExistingAppend(x, fs, ItemFinding(x, it));
    PromoteOne(x, Loaded(x, once), it);
  }

  /** A report written by hand, with one detection whose summary starts with a blank. */
  const HAND_WRITTEN: Result := Result(
    Ascii("asan"), Ascii("E"), Ascii("clean-run"), true, true, [Ascii("heap_overflow")],
    [Detection(Ascii("heap_overflow"), [0x20, 0x61], None, None, None, None)], NO_REPORT)

  lemma HandWrittenItems()
    ensures AllItems([HAND_WRITTEN]) == [Item(HAND_WRITTEN, 0, HAND_WRITTEN.detections[0])]
  {
    assert |HAND_WRITTEN.tool| == 4 && |Ascii("gdb")| == 3;
    assert [HAND_WRITTEN][..0] == [] && AllItems([]) == [];
    assert ItemsOf(HAND_WRITTEN) == [Item(HAND_WRITTEN, 0, HAND_WRITTEN.detections[0])];
  }

  lemma HandWrittenReportRepeats(x: Texts)
    requires x.trim([0x20, 0x61]) == [0x61]
    ensures var items := AllItems([HAND_WRITTEN]);
      |Promoted(x, [], items)| == 1 && |Promoted(x, Promoted(x, [], items), items)| == 2
  {
    var it := Item(HAND_WRITTEN, 0, HAND_WRITTEN.detections[0]);
    HandWrittenItems();
    assert |ItemKey(x, it)| == |ReloadKey(x, it)| + 1;
    UntrimmedRepeats(x, [], it);
  }

  lemma PromoteOne(x: Texts, p: Pack, it: Item)
    ensures PromoteItems(x, p, [it]) == PromoteItem(x, p, it)
  {
    assert [it][..0] == [];
  }

  // ----- added findings are new, and a reload in between changes nothing -----

  /** Detections that were neither confirmed nor known get pairwise different keys. */
  lemma {:induction false} AddedKeysAreNew(x: Texts, fs: seq<Value>, items: seq<Item>)
    requires AllTrimmed(x, items)
    ensures var fs' := Promoted(x, fs, items);
      && fs <= fs'
      && (forall i :: |fs| <= i < |fs'| ==>
            ReadKey(x, fs'[i]).Some? && ReadKey(x, fs'[i]).value !in ExistingKeys(x, fs))
      && forall i, j :: |fs| <= i < j < |fs'| ==> ReadKey(x, fs'[i]) != ReadKey(x, fs'[j])
  {
    PromotionAppends(x, Loaded(x, fs), items);
    if items != [] {
      var before, it := items[..|items| - 1], items[|items| - 1];
      AddedKeysAreNew(x, fs, before);
      PromotionAppends(x, Loaded(x, fs), before);
      KnownKeysAreReloaded(x, fs, before);
      assert it in items;
      ReadsBack(x, it);
      var mid := Promoted(x, fs, before);
      if !Settled(x, Loaded(x, mid), it) {
        forall i | |fs| <= i < |mid| ensures ReadKey(x, mid[i]) != Some(ItemKey(x, it)) {
          assert mid[i] in mid;
        }
      }
    }
  }

  ghost predicate AlikePacks(p: Pack, q: Pack, n: nat) {
    && Alike(p.findings, q.findings) && p.known == q.known
    && n <= |p.findings| && p.findings[n..] == q.findings[n..]
  }

  lemma PromoteItemAlike(x: Texts, p: Pack, q: Pack, n: nat, it: Item)
    requires AlikePacks(p, q, n)
    ensures AlikePacks(PromoteItem(x, p, it), PromoteItem(x, q, it), n)
  {
    AlikeKeys(x, p.findings, q.findings);
    var f := ItemFinding(x, it);
    assert (p.findings + [f])[n..] == p.findings[n..] + [f];
    assert (q.findings + [f])[n..] == q.findings[n..] + [f];
  }

  /** Promotion adds the same findings to lists it cannot tell apart. */
  lemma {:induction false} PromotionIgnoresReload(x: Texts, fs: seq<Value>, gs: seq<Value>, items: seq<Item>)
    requires Alike(fs, gs)
    ensures AlikePacks(PromoteItems(x, Loaded(x, fs), items), PromoteItems(x, Loaded(x, gs), items), |fs|)
  {
    if items == [] {
      AlikeKeys(x, fs, gs);
    } else {
      var before := items[..|items| - 1];
      PromotionIgnoresReload(x, fs, gs, before);
      PromoteItemAlike(x, PromoteItems(x, Loaded(x, fs), before), PromoteItems(x, Loaded(x, gs), before), |fs|,
                       items[|items| - 1]);
    }
  }

  /** Promoting a, reloading the findings in any way that keeps the paths promotion reads, and
      then promoting b adds what promoting both would have added. */
  lemma PromotionAcrossReload(x: Texts, fs: seq<Value>, a: seq<Item>, b: seq<Item>, reloaded: seq<Value>)
    requires AllTrimmed(x, a) && Alike(Promoted(x, fs, a), reloaded)
    ensures var mid, once, twice := Promoted(x, fs, a), Promoted(x, fs, a + b), Promoted(x, reloaded, b);
      && mid <= once && |twice| == |once| && reloaded <= twice
      && twice[|mid|..] == once[|mid|..]
  {
    var mid := Promoted(x, fs, a);
    PromotionComposes(x, fs, a, b);
    PromotionIgnoresReload(x, mid, reloaded, b);
    PromotionAppends(x, Loaded(x, mid), b);
    PromotionAppends(x, Loaded(x, reloaded), b);
  }

  // ----- the reload the program makes: provenance, then issue groups -----

  /** Where a finding's binary is, and the source path found for it from its evidence and
      primary location. */
  datatype Binary = Binary(
    original: Text, copied: Text, source: (Option<Value>, Option<Value>) -> Option<Text>)

  function OrInsert(fields: map<string, Value>, key: string, x: Value): map<string, Value> {
    if key in fields then fields else fields[key := x]
  }

  function Provenance(bin: Binary, f: Value): map<string, Value>
    requires f.Object?
  {
    var given := if "provenance" in f.fields then FieldsOf(f.fields["provenance"]) else map[];
    var named := OrInsert(OrInsert(given, "binary_path", Str(bin.copied)), "original_binary_path", Str(bin.original));
    match bin.source(Field(f, "evidence"), Field(f, "primaryLocation"))
    case Some(path) => OrInsert(named, "source_path", Str(path))["source_status" := Str(Ascii("resolved"))]
    case None => OrInsert(named, "source_status", Str(Ascii("unresolved")))
  }

  function WithProvenance(bin: Binary, f: Value): Value {
    if f.Object? then Object(f.fields["provenance" := Object(Provenance(bin, f))]) else f
  }

  /** A finding as the program writes it back after a promotion. */
  function Finalized(r: Rules, bin: Binary, f: Value): Value {
    Annotated(r, WithProvenance(bin, f))
  }

  function FinalizedAll(r: Rules, bin: Binary, fs: seq<Value>): seq<Value> {
    seq(|fs|, i requires 0 <= i < |fs| => Finalized(r, bin, fs[i]))
  }

  /** The second value differs from the first in the marks and in its provenance only. */
  ghost predicate WrittenBack(f: Value, g: Value, provenance: Value) {
    && g.Object? && Field(g, "provenance") == Some(provenance)
    && forall key :: key != "provenance" && key != "fingerprint" && key != "issue_group_id" ==>
         Field(g, key) == Field(f, key)
  }

  lemma MarksKeepFields(f: Value, g: Value, provenance: Value, fp: Text)
    requires WrittenBack(f, g, provenance)
    ensures WrittenBack(f, Marked(g, fp), provenance)
  {
  }

  lemma FinalizedFields(r: Rules, bin: Binary, f: Value)
    requires f.Object?
    ensures WrittenBack(f, Finalized(r, bin, f), Object(Provenance(bin, f)))
  {
    var g := WithProvenance(bin, f);
    MarksKeepFields(f, g, Object(Provenance(bin, f)), FingerprintOf(r, g));
  }

  lemma OtherFieldsRead(f: Value, g: Value, provenance: Value)
    requires f.Object? && WrittenBack(f, g, provenance)
    ensures SamePromotionReads(f, g)
  {
    forall path | PromotionPath(path) ensures Get(g, path) == Get(f, path) {
      var rest := path[1..];
      assert path[0] in ["id", "class", "kind", "message", "evidence"];
      assert Field(g, path[0]) == Field(f, path[0]);
      assert path == [path[0]] + rest;
      GetField(f, path[0], rest);
      GetField(g, path[0], rest);
    }
  }

  lemma FinalizedKeepsReads(r: Rules, bin: Binary, f: Value)
    ensures SamePromotionReads(f, Finalized(r, bin, f))
  {
    if f.Object? {
      FinalizedFields(r, bin, f);
      OtherFieldsRead(f, Finalized(r, bin, f), Object(Provenance(bin, f)));
    }
  }

  lemma ProvenanceIdempotent(bin: Binary, f: Value, g: Value)
    requires f.Object? && WrittenBack(f, g, Object(Provenance(bin, f)))
    ensures WithProvenance(bin, g) == g
  {
    var again := Provenance(bin, g);
    assert Field(g, "evidence") == Field(f, "evidence") && Field(g, "primaryLocation") == Field(f, "primaryLocation");
    assert again == Provenance(bin, f);
    assert g.fields["provenance" := Object(again)] == g.fields;
  }

  /** Writing findings back twice is writing them back once. */
  lemma FinalizedIdempotent(r: Rules, bin: Binary, f: Value)
    ensures Finalized(r, bin, Finalized(r, bin, f)) == Finalized(r, bin, f)
  {
    if f.Object? {
      FinalizedFields(r, bin, f);
      ProvenanceIdempotent(bin, f, Finalized(r, bin, f));
      AnnotationIdempotent(r, WithProvenance(bin, f));
    }
  }

  /** Promoting a, writing the findings back with provenance and issue groups, and promoting b
      ends in the same file as promoting both. */
  lemma PromotionAcrossFinalization(x: Texts, r: Rules, bin: Binary, fs: seq<Value>, a: seq<Item>, b: seq<Item>)
    requires AllTrimmed(x, a)
    ensures FinalizedAll(r, bin, Promoted(x, FinalizedAll(r, bin, Promoted(x, fs, a)), b)) ==
      FinalizedAll(r, bin, Promoted(x, fs, a + b))
  {
    var mid := Promoted(x, fs, a);
    var written := FinalizedAll(r, bin, mid);
    forall i | 0 <= i < |mid| ensures SamePromotionReads(mid[i], written[i]) {
      FinalizedKeepsReads(r, bin, mid[i]);
    }
    PromotionAcrossReload(x, fs, a, b, written);
    var once, twice := Promoted(x, fs, a + b), Promoted(x, written, b);
    forall i | 0 <= i < |once| ensures Finalized(r, bin, twice[i]) == Finalized(r, bin, once[i]) {
      if i < |mid| {
        FinalizedIdempotent(r, bin, mid[i]);
        assert twice[i] == written[i] && once[i] == mid[i];
      } else {
        assert once[i] == once[|mid|..][i - |mid|] == twice[|mid|..][i - |mid|] == twice[i];
      }
    }
  }
}
