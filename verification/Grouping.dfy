/** Grouping by a text key, as an ordered map does it: distinct keys in ascending order,
    and for each key the positions that carry it. */
module Grouping {
  import opened Words

  type Text = seq<byte>

  /** Byte-wise lexicographic order, a proper prefix first. */
  predicate Less(a: Text, b: Text) {
    b != [] && (a == [] || a[0] < b[0] || (a[0] == b[0] && Less(a[1..], b[1..])))
  }

  lemma {:induction false} LessTrichotomy(a: Text, b: Text)
    ensures Less(a, b) || a == b || Less(b, a)
    ensures !(Less(a, b) && Less(b, a)) && !Less(a, a)
  {
    if a != [] {
      LessTrichotomy(a[1..], a[1..]);
      if b != [] {
        LessTrichotomy(a[1..], b[1..]);
        assert a == [a[0]] + a[1..] && b == [b[0]] + b[1..];
      }
    }
  }

  lemma {:induction false} LessTransitive(a: Text, b: Text, c: Text)
    requires Less(a, b) && Less(b, c)
    ensures Less(a, c)
  {
    if a != [] && a[0] == b[0] == c[0] {
      LessTransitive(a[1..], b[1..], c[1..]);
    }
  }

  ghost predicate Ascending(keys: seq<Text>) {
    forall i, j :: 0 <= i < j < |keys| ==> Less(keys[i], keys[j])
  }

  /** Insertion into an ascending list of keys; a key already there stays once. */
  function Inserted(order: seq<Text>, k: Text): seq<Text> {
    if order == [] then [k]
    else if Less(k, order[0]) then [k] + order
    else if k == order[0] then order
    else [order[0]] + Inserted(order[1..], k)
  }

  lemma {:induction false} InsertedAscends(order: seq<Text>, k: Text)
    requires Ascending(order)
    ensures Ascending(Inserted(order, k))
    ensures forall x :: x in Inserted(order, k) <==> x in order || x == k
  {
    if order != [] {
      LessTrichotomy(k, order[0]);
      if Less(k, order[0]) {
        forall j | 0 <= j < |order| ensures Less(k, order[j]) {
          if j > 0 { LessTransitive(k, order[0], order[j]); }
        }
      } else if k != order[0] {
        InsertedAscends(order[1..], k);
        var rest := Inserted(order[1..], k);
        forall j | 0 <= j < |rest| ensures Less(order[0], rest[j]) {
          assert rest[j] in rest;
          if rest[j] != k {
            var i :| 0 <= i < |order[1..]| && order[1..][i] == rest[j];
            assert order[i + 1] == rest[j];
          }
        }
      }
    }
  }

  /** Two ascending lists of the same keys are the same list. */
  lemma {:induction false} AscendingUnique(a: seq<Text>, b: seq<Text>)
    requires Ascending(a) && Ascending(b)
    requires forall x :: x in a <==> x in b
    ensures a == b
  {
    EmptyOrInhabited(a);
    EmptyOrInhabited(b);
    if a != [] && b != [] {
      assert a[0] in b && b[0] in a;
      HeadIsLeast(a, b[0]);
      HeadIsLeast(b, a[0]);
      LessTrichotomy(a[0], b[0]);
      forall x ensures x in a[1..] <==> x in b[1..] {
        TailMembers(a, x);
        TailMembers(b, x);
      }
      AscendingUnique(a[1..], b[1..]);
    }
  }

  lemma EmptyOrInhabited<T>(a: seq<T>)
    ensures a == [] || exists x :: x in a
  {
    if a != [] {
      assert a[0] in a;
    }
  }

  lemma HeadIsLeast(a: seq<Text>, x: Text)
    requires Ascending(a) && x in a
    ensures x == a[0] || Less(a[0], x)
  {
  }

  lemma TailMembers(a: seq<Text>, x: Text)
    requires Ascending(a) && a != []
    ensures x in a[1..] <==> x in a && x != a[0]
  {
    LessTrichotomy(a[0], a[0]);
    if x in a && x != a[0] {
      var i :| 0 <= i < |a| && a[i] == x;
      assert a[1..][i - 1] == x;
    }
    if x in a[1..] {
      var i :| 0 <= i < |a[1..]| && a[1..][i] == x;
      assert a[i + 1] == x;
    }
  }

  // ----- keys of a list -----

  function KeyOrder(keys: seq<Text>): seq<Text> {
    if keys == [] then [] else Inserted(KeyOrder(keys[..|keys| - 1]), keys[|keys| - 1])
  }

  lemma {:induction false} KeyOrderIs(keys: seq<Text>)
    ensures Ascending(KeyOrder(keys))
    ensures forall x :: x in KeyOrder(keys) <==> x in keys
  {
    if keys != [] {
      var before := keys[..|keys| - 1];
      KeyOrderIs(before);
      InsertedAscends(KeyOrder(before), keys[|keys| - 1]);
      assert keys == before + [keys[|keys| - 1]];
    }
  }

  function PositionsOf(keys: seq<Text>, k: Text): (ps: seq<nat>)
    ensures forall i :: 0 <= i < |ps| ==> ps[i] < |keys|
  {
    if keys == [] then []
    else
      var before := PositionsOf(keys[..|keys| - 1], k);
      if keys[|keys| - 1] == k then before + [|keys| - 1] else before
  }

  /** The positions of a key are exactly its occurrences, in increasing order. */
  lemma {:induction false} PositionsAre(keys: seq<Text>, k: Text)
    ensures forall i :: i in PositionsOf(keys, k) <==> 0 <= i < |keys| && keys[i] == k
    ensures forall a, b :: 0 <= a < b < |PositionsOf(keys, k)| ==> PositionsOf(keys, k)[a] < PositionsOf(keys, k)[b]
  {
    if keys != [] {
      PositionsAre(keys[..|keys| - 1], k);
    }
  }

  // ----- conservation -----

  function Sum(ws: seq<nat>): nat {
    if ws == [] then 0 else Sum(ws[..|ws| - 1]) + ws[|ws| - 1]
  }

  /** Total weight of the positions that carry `k`. */
  function WeightOf(keys: seq<Text>, ws: seq<nat>, k: Text): nat
    requires |keys| == |ws|
  {
    if keys == [] then 0
    else WeightOf(keys[..|keys| - 1], ws[..|ws| - 1], k) + if keys[|keys| - 1] == k then ws[|ws| - 1] else 0
  }

  function WeightOver(order: seq<Text>, keys: seq<Text>, ws: seq<nat>): nat
    requires |keys| == |ws|
  {
    if order == [] then 0 else WeightOf(keys, ws, order[0]) + WeightOver(order[1..], keys, ws)
  }

  lemma {:induction false} WeightOverStep(order: seq<Text>, keys: seq<Text>, ws: seq<nat>)
    requires |keys| == |ws| && keys != [] && Ascending(order)
    ensures WeightOver(order, keys, ws) == WeightOver(order, keys[..|keys| - 1], ws[..|ws| - 1]) +
      if keys[|keys| - 1] in order then ws[|ws| - 1] else 0
  {
    if order != [] {
      WeightOverStep(order[1..], keys, ws);
      TailMembers(order, keys[|keys| - 1]);
    }
  }

  /** The groups of any ascending key list that misses no key share out the whole weight. */
  lemma {:induction false} WeightConserved(order: seq<Text>, keys: seq<Text>, ws: seq<nat>)
    requires |keys| == |ws| && Ascending(order)
    requires forall k :: k in keys ==> k in order
    ensures WeightOver(order, keys, ws) == Sum(ws)
  {
    if keys == [] {
      NoKeysNoWeight(order, keys, ws);
    } else {
      assert keys[|keys| - 1] in keys;
      WeightConserved(order, keys[..|keys| - 1], ws[..|ws| - 1]);
      WeightOverStep(order, keys, ws);
    }
  }

  lemma {:induction false} NoKeysNoWeight(order: seq<Text>, keys: seq<Text>, ws: seq<nat>)
    requires keys == [] && ws == []
    ensures WeightOver(order, keys, ws) == 0
  {
    if order != [] {
      NoKeysNoWeight(order[1..], keys, ws);
    }
  }

  /** A text is less than another where it is a proper prefix of it, or has the smaller byte
      at the first place where they differ. */
  lemma {:induction false} LessIff(a: Text, b: Text)
    ensures Less(a, b) <==> exists n :: 0 <= n <= |a| && n < |b| && a[..n] == b[..n] && (n == |a| || a[n] < b[n])
  {
    if Less(a, b) {
      var n := FirstDifference(a, b);
    }
    forall n | 0 <= n <= |a| && n < |b| && a[..n] == b[..n] && (n == |a| || a[n] < b[n]) ensures Less(a, b) {
      LessBy(a, b, n);
    }
  }

  lemma {:induction false} FirstDifference(a: Text, b: Text) returns (n: nat)
    requires Less(a, b)
    ensures n <= |a| && n < |b| && a[..n] == b[..n] && (n == |a| || a[n] < b[n])
  {
    if a == [] || a[0] < b[0] {
      n := 0;
    } else {
      var m := FirstDifference(a[1..], b[1..]);
      n := m + 1;
      assert a[..n] == [a[0]] + a[1..][..m] && b[..n] == [b[0]] + b[1..][..m];
    }
  }

  lemma {:induction false} LessBy(a: Text, b: Text, n: nat)
    requires n <= |a| && n < |b| && a[..n] == b[..n] && (n == |a| || a[n] < b[n])
    ensures Less(a, b)
  {
    if n > 0 {
      assert a[0] == a[..n][0] == b[..n][0] == b[0];
      assert a[1..][..n - 1] == a[..n][1..] && b[1..][..n - 1] == b[..n][1..];
      LessBy(a[1..], b[1..], n - 1);
    }
  }
}
