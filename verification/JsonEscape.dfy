/** The bounded JSON string escaper of the agent, with the unescaping of section 7 of
    RFC 8259 as its inverse. */
module JsonEscape {
  import opened Words

  const QUOTE: byte := 34
  const BACKSLASH: byte := 92
  const NEWLINE: byte := 10
  const SPACE: byte := 32
  const LOWER_N: byte := 110
  const LOWER_U: byte := 117
  const DIGIT_0: byte := 48

  predicate Plain(c: byte) {
    c >= SPACE && c != QUOTE && c != BACKSLASH
  }

  predicate Numeric(c: byte) {
    c < SPACE && c != NEWLINE
  }

  function HexValue(c: byte): Option<int> {
    if 48 <= c <= 57 then Some(c - 48)
    else if 97 <= c <= 102 then Some(c - 87)
    else if 65 <= c <= 70 then Some(c - 55)
    else None
  }

  function Escaped(c: byte): (r: seq<byte>)
    ensures |r| == if Plain(c) then 1 else if Numeric(c) then 6 else 2
  {
    if c == QUOTE || c == BACKSLASH then [BACKSLASH, c]
    else if c == NEWLINE then [BACKSLASH, LOWER_N]
    else if c < SPACE then [BACKSLASH, LOWER_U, DIGIT_0, DIGIT_0, HexDigit(c / 16), HexDigit(c % 16)]
    else [c]
  }

  function EscapedAll(s: seq<byte>): seq<byte> {
    if s == [] then [] else Escaped(s[0]) + EscapedAll(s[1..])
  }

  /** The reader's side: quotes and control bytes must not appear raw, a backslash must
      start a known escape, and a numeric escape must denote one ASCII character. */
  function Unescaped(s: seq<byte>): Option<seq<byte>> {
    if s == [] then Some([])
    else if s[0] == BACKSLASH then
      if |s| < 2 then None
      else if s[1] == LOWER_U then
        if |s| < 6 then None else Prepend(HexByte(s[2], s[3], s[4], s[5]), Unescaped(s[6..]))
      else Prepend(ShortEscape(s[1]), Unescaped(s[2..]))
    else if s[0] < SPACE || s[0] == QUOTE then None
    else Prepend(Some(s[0]), Unescaped(s[1..]))
  }

  function ShortEscape(c: byte): Option<byte> {
    if c == QUOTE || c == BACKSLASH || c == 47 then Some(c)
    else if c == 98 then Some(8)
    else if c == 102 then Some(12)
    else if c == LOWER_N then Some(NEWLINE)
    else if c == 114 then Some(13)
    else if c == 116 then Some(9)
    else None
  }

  function HexByte(a: byte, b: byte, c: byte, d: byte): Option<byte> {
    var (h3, h2, h1, h0) := (HexValue(a), HexValue(b), HexValue(c), HexValue(d));
    if h3.None? || h2.None? || h1.None? || h0.None? then None
    else
      var code := h3.value * 4096 + h2.value * 256 + h1.value * 16 + h0.value;
      if 0 <= code < 128 then Some(code) else None
  }

  function Prepend(c: Option<byte>, rest: Option<seq<byte>>): Option<seq<byte>> {
    if c.Some? && rest.Some? then Some([c.value] + rest.value) else None
  }

  lemma HexDigitsRead(c: byte)
    requires c < SPACE
    ensures HexByte(DIGIT_0, DIGIT_0, HexDigit(c / 16), HexDigit(c % 16)) == Some(c)
  {
    assert HexValue(HexDigit(c / 16)) == Some(c / 16) && HexValue(HexDigit(c % 16)) == Some(c % 16);
  }

  lemma OneEscapeReads(c: byte, rest: seq<byte>)
    ensures Unescaped(Escaped(c) + rest) == Prepend(Some(c), Unescaped(rest))
  {
    var e := Escaped(c);
    var s := e + rest;
    assert s[|e|..] == rest;
    if Numeric(c) {
      HexDigitsRead(c);
    }
  }

  /** Escaping loses nothing. */
  lemma {:induction false} EscapeRoundTrip(s: seq<byte>)
    ensures Unescaped(EscapedAll(s)) == Some(s)
  {
    if s != [] {
      EscapeRoundTrip(s[1..]);
      OneEscapeReads(s[0], EscapedAll(s[1..]));
      assert s == [s[0]] + s[1..];
    }
  }

  /** No control byte, hence no terminator, appears inside the output. */
  lemma {:induction false} NoControlBytes(s: seq<byte>)
    ensures forall b :: b in EscapedAll(s) ==> b >= SPACE
  {
    if s != [] {
      NoControlBytes(s[1..]);
      forall b | b in EscapedAll(s) ensures b >= SPACE {
        assert b in Escaped(s[0]) || b in EscapedAll(s[1..]);
      }
    }
  }

  lemma {:induction false} EscapedAllAppend(s: seq<byte>, c: byte)
    ensures EscapedAll(s + [c]) == EscapedAll(s) + Escaped(c)
  {
    if s == [] {
      assert EscapedAll([c]) == Escaped(c) + EscapedAll([]);
    } else {
      EscapedAllAppend(s[1..], c);
      assert (s + [c])[1..] == s[1..] + [c];
    }
  }

  lemma {:induction false} EscapedAllLength(s: seq<byte>)
    ensures |s| <= |EscapedAll(s)| <= 6 * |s|
  {
    if s != [] {
      EscapedAllLength(s[1..]);
    }
  }

  /** Room the escaper insists on before it emits a character at `pos`. */
  predicate Fits(pos: nat, c: byte, size: nat) {
    pos + 2 < size && (Numeric(c) ==> pos + 6 < size)
  }

  /** How many characters of the input are emitted into a buffer of this size. */
  function Consumed(s: seq<byte>, n: nat, size: nat): (m: nat)
    requires n <= |s|
    ensures n <= m <= |s|
    decreases |s| - n
  {
    if n < |s| && Fits(|EscapedAll(s[..n])|, s[n], size) then Consumed(s, n + 1, size) else n
  }

  lemma EscapedStep(s: seq<byte>, n: nat)
    requires n < |s|
    ensures EscapedAll(s[..n + 1]) == EscapedAll(s[..n]) + Escaped(s[n])
  {
    assert s[..n + 1] == s[..n] + [s[n]];
    EscapedAllAppend(s[..n], s[n]);
  }

  method JsonEscape(input: seq<byte>, out: array<byte>) returns (pos: nat)
    requires out.Length >= 1 && 0 !in input
    modifies out
    ensures pos < out.Length && out[pos] == 0
    ensures out[..pos] == EscapedAll(input[..Consumed(input, 0, out.Length)])
    ensures forall i :: pos < i < out.Length ==> out[i] == old(out[i])
  {
    pos := 0;
    var n := 0;
    while n < |input| && pos + 2 < out.Length
      invariant n <= |input| && pos < out.Length
      invariant out[..pos] == EscapedAll(input[..n])
      invariant Consumed(input, 0, out.Length) == Consumed(input, n, out.Length)
      invariant forall i :: pos < i < out.Length ==> out[i] == old(out[i])
      decreases |input| - n
    {
      var c := input[n];
      if c < SPACE && c != NEWLINE && pos + 6 >= out.Length {
        break;
      }
      EscapedStep(input, n);
      pos := WriteEscaped(out, pos, c);
      n := n + 1;
    }
    out[pos] := 0;
  }

  /** Writes one character's escape; a control character brings its own terminator. */
  method WriteEscaped(out: array<byte>, pos: nat, c: byte) returns (end: nat)
    requires Fits(pos, c, out.Length)
    modifies out
    ensures end == pos + |Escaped(c)| < out.Length
    ensures out[..end] == old(out[..pos]) + Escaped(c)
    ensures forall i :: end < i < out.Length ==> out[i] == old(out[i])
  {
    ghost var before := out[..pos];
    if c == QUOTE || c == BACKSLASH {
      out[pos], out[pos + 1] := BACKSLASH, c;
      end := pos + 2;
    } else if c == NEWLINE {
      out[pos], out[pos + 1] := BACKSLASH, LOWER_N;
      end := pos + 2;
    } else if c < SPACE {
      out[pos], out[pos + 1], out[pos + 2], out[pos + 3] := BACKSLASH, LOWER_U, DIGIT_0, DIGIT_0;
      out[pos + 4], out[pos + 5], out[pos + 6] := HexDigit(c / 16), HexDigit(c % 16), 0;
      end := pos + 6;
    } else {
      out[pos] := c;
      end := pos + 1;
    }
    assert out[..pos] == before;
    assert out[pos..end] == Escaped(c);
    assert out[..end] == out[..pos] + out[pos..end];
  }

  /** What is written always reads back as a prefix of the input. */
  lemma OutputReadsBackAsPrefix(s: seq<byte>, size: nat)
    ensures var m := Consumed(s, 0, size);
      m <= |s| && Unescaped(EscapedAll(s[..m])) == Some(s[..m])
  {
    EscapeRoundTrip(s[..Consumed(s, 0, size)]);
  }

  lemma {:induction false} ConsumedAllIff(s: seq<byte>, n: nat, size: nat)
    requires n <= |s|
    requires n > 0 ==> Fits(|EscapedAll(s[..n - 1])|, s[n - 1], size)
    ensures Consumed(s, n, size) == |s| <==>
      n == |s| || |EscapedAll(s)| + (if Plain(s[|s| - 1]) then 1 else 0) < size
    decreases |s| - n
  {
    assert s[..|s|] == s;
    if n < |s| {
      EscapedStep(s, n);
      EscapedGrows(s, n + 1);
      if Fits(|EscapedAll(s[..n])|, s[n], size) {
        ConsumedAllIff(s, n + 1, size);
      }
    }
  }

  lemma {:induction false} EscapedGrows(s: seq<byte>, n: nat)
    requires n <= |s|
    ensures |EscapedAll(s[..n])| <= |EscapedAll(s)|
    ensures n < |s| ==> |EscapedAll(s[..n])| + |Escaped(s[|s| - 1])| <= |EscapedAll(s)|
    decreases |s| - n
  {
    assert s[..|s|] == s;
    if n < |s| {
      EscapedStep(s, n);
      EscapedGrows(s, n + 1);
    }
  }

  /** The whole input is written exactly when the escaped text and its terminator fit,
      with one spare byte after a plain last character. */
  lemma WholeInputIff(s: seq<byte>, size: nat)
    ensures Consumed(s, 0, size) == |s| <==>
      s == [] || |EscapedAll(s)| + (if Plain(s[|s| - 1]) then 1 else 0) < size
    ensures size > 6 * |s| && s != [] ==> Consumed(s, 0, size) == |s|
  {
    ConsumedAllIff(s, 0, size);
    if s != [] {
      assert s[..|s|] == s;
      EscapedStep(s, |s| - 1);
      EscapedAllLength(s[..|s| - 1]);
    }
  }

  /** A quote and a backslash get a backslash, a newline becomes a backslash and an n, any other
      byte below 32 a backslash, u and four digits, and the rest stands for itself. */
  lemma EscapeTable(c: byte)
    ensures Escaped(34) == [92, 34] && Escaped(92) == [92, 92] && Escaped(10) == [92, 110]
    ensures Escaped(9) == [92, 117, 48, 48, 48, 57] && Escaped(31) == [92, 117, 48, 48, 49, 102]
    ensures c >= 32 && c != 34 && c != 92 ==> Escaped(c) == [c]
    ensures c < 32 && c != 10 ==> |Escaped(c)| == 6 && Escaped(c)[..4] == [92, 117, 48, 48]
  {
  }
}
