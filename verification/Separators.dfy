/** Texts joined by a separator byte, and taking them apart again. */
module Separators {
  import opened Words
  import opened Grouping

  const SEPARATOR: byte := 0x1f
  const SEP: Text := [SEPARATOR]

  predicate NoSep(t: Text) {
    0x1f !in t
  }

  lemma NoSepBefore(a: Text, r: Text, i: nat)
    requires NoSep(a) && i < |a|
    ensures (a + SEP + r)[i] != 0x1f
  {
    assert (a + SEP + r)[i] == a[i];
  }

  lemma NoSepAfter(r: Text, a: Text, i: nat)
    requires NoSep(a) && |r| < i < |r| + 1 + |a|
    ensures (r + SEP + a)[i] != 0x1f
  {
    assert (r + SEP + a)[i] == a[i - |r| - 1];
  }

  lemma SepAt(r: Text, a: Text)
    ensures var t := r + SEP + a; t[|r|] == 0x1f && t[..|r|] == r && t[|r| + 1..] == a && |t| == |r| + 1 + |a|
  {
  }

  lemma FirstSepSplits(a: Text, r: Text, b: Text, s: Text)
    requires NoSep(a) && NoSep(b) && a + SEP + r == b + SEP + s
    ensures a == b && r == s
  {
    SepAt(a, r);
    SepAt(b, s);
    forall i | 0 <= i < |a| ensures (a + SEP + r)[i] != 0x1f { NoSepBefore(a, r, i); }
    forall i | 0 <= i < |b| ensures (b + SEP + s)[i] != 0x1f { NoSepBefore(b, s, i); }
  }

  lemma LastSepSplits(r: Text, a: Text, s: Text, b: Text)
    requires NoSep(a) && NoSep(b) && r + SEP + a == s + SEP + b
    ensures r == s && a == b
  {
    SepAt(r, a);
    SepAt(s, b);
    forall i | |r| < i < |r| + 1 + |a| ensures (r + SEP + a)[i] != 0x1f { NoSepAfter(r, a, i); }
    forall i | |s| < i < |s| + 1 + |b| ensures (s + SEP + b)[i] != 0x1f { NoSepAfter(s, b, i); }
  }
}
