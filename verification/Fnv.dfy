/** The 64-bit FNV-1a hash of issue fingerprints. */
module Fnv {
  import opened Words

  const OFFSET_BASIS: u64 := 0xcbf2_9ce4_8422_2325

  function Pow2(k: nat): nat {
    if k == 0 then 1 else 2 * Pow2(k - 1)
  }

  /** Exclusive or of the low `k` bits. */
  function Xor(a: nat, b: nat, k: nat): (r: nat)
    ensures r < Pow2(k)
  {
    if k == 0 then 0 else (a + b) % 2 + 2 * Xor(a / 2, b / 2, k - 1)
  }

  lemma Halves(low: nat, high: nat)
    requires low < 2
    ensures (low + 2 * high) / 2 == high && (low + 2 * high) % 2 == low
  {
  }

  lemma ParityCancels(a: nat, b: nat, r: nat)
    requires r % 2 == (a + b) % 2
    ensures (r + b) % 2 == a % 2
  {
  }

  lemma ParityInjective(a: nat, b: nat, c: nat)
    requires (a + b) % 2 == (a + c) % 2
    ensures b % 2 == c % 2
  {
  }

  lemma XorStep(a: nat, b: nat, k: nat)
    requires k > 0
    ensures Xor(a, b, k) / 2 == Xor(a / 2, b / 2, k - 1) && Xor(a, b, k) % 2 == (a + b) % 2
  {
    Halves((a + b) % 2, Xor(a / 2, b / 2, k - 1));
  }

  lemma EqualByHalves(a: nat, b: nat)
    requires a / 2 == b / 2 && a % 2 == b % 2
    ensures a == b
  {
  }

  lemma HalfFits(a: nat, k: nat)
    requires k > 0 && a < Pow2(k)
    ensures a / 2 < Pow2(k - 1)
  {
  }

  lemma {:induction false} XorCancels(a: nat, b: nat, k: nat)
    requires a < Pow2(k)
    ensures Xor(Xor(a, b, k), b, k) == a
  {
    if k > 0 {
      var r := Xor(a, b, k);
      XorStep(a, b, k);
      XorStep(r, b, k);
      HalfFits(a, k);
      XorCancels(a / 2, b / 2, k - 1);
      ParityCancels(a, b, r);
      EqualByHalves(Xor(r, b, k), a);
    }
  }

  lemma {:induction false} XorInjective(a: nat, b: nat, c: nat, k: nat)
    requires b < Pow2(k) && c < Pow2(k) && Xor(a, b, k) == Xor(a, c, k)
    ensures b == c
  {
    if k > 0 {
      XorStep(a, b, k);
      XorStep(a, c, k);
      ParityInjective(a, b, c);
      HalfFits(b, k);
      HalfFits(c, k);
      XorInjective(a / 2, b / 2, c / 2, k - 1);
      EqualByHalves(b, c);
    }
  }

  lemma EightBits()
    ensures Pow2(8) == 256
  {
    assert Pow2(4) == 16;
  }

  /** Exclusive or with a byte changes the lowest byte of a hash only. */
  function XorByte(h: u64, b: byte): u64 {
    EightBits();
    h / 256 * 256 + Xor(h % 256, b, 8)
  }

  /** Multiplication by the FNV prime, and by its inverse modulo 2^64. */
  function Times(h: u64): u64 {
    Wrap64(h * 0x100_0000_01b3)
  }

  function Untimes(h: u64): u64 {
    Wrap64(h * 0xce96_5057_aff6_957b)
  }

  function Mix(h: u64, b: byte): u64 {
    Times(XorByte(h, b))
  }

  function Unmix(h: u64, b: byte): u64 {
    XorByte(Untimes(h), b)
  }

  lemma WrapDropsTurns(y: u64, turns: int)
    ensures Wrap64(y + TWO64 * turns) == y
  {
  }

  lemma TimesInverts(h: u64)
    ensures Untimes(Times(h)) == h && Times(Untimes(h)) == h
  {
    var p, i := 0x100_0000_01b3, 0xce96_5057_aff6_957b;
    var k := 0xce_9650_590f;
    assert p * i == 1 + k * TWO64;
    var q := h * p / TWO64;
    assert Times(h) == h * p - TWO64 * q;
    assert Times(h) * i == h + TWO64 * (h * k - q * i);
    WrapDropsTurns(h, h * k - q * i);
    var q' := h * i / TWO64;
    assert Untimes(h) == h * i - TWO64 * q';
    assert Untimes(h) * p == h + TWO64 * (h * k - q' * p);
    WrapDropsTurns(h, h * k - q' * p);
  }

  lemma SplitByte(high: nat, low: nat)
    requires low < 256
    ensures (high * 256 + low) / 256 == high && (high * 256 + low) % 256 == low
  {
  }

  lemma XorByteInverts(h: u64, b: byte)
    ensures XorByte(XorByte(h, b), b) == h
  {
    EightBits();
    SplitByte(h / 256, Xor(h % 256, b, 8));
    XorCancels(h % 256, b, 8);
  }

  /** One round is a bijection on 64-bit states. */
  lemma MixInverts(h: u64, b: byte)
    ensures Unmix(Mix(h, b), b) == h && Mix(Unmix(h, b), b) == h
  {
    TimesInverts(XorByte(h, b));
    XorByteInverts(h, b);
    XorByteInverts(Untimes(h), b);
    TimesInverts(h);
  }

  lemma MixDistinguishesBytes(h: u64, a: byte, b: byte)
    requires Mix(h, a) == Mix(h, b)
    ensures a == b
  {
    EightBits();
    TimesInverts(XorByte(h, a));
    TimesInverts(XorByte(h, b));
    XorInjective(h % 256, a, b, 8);
  }

  function Fold(h: u64, s: seq<byte>): u64 {
    if s == [] then h else Mix(Fold(h, s[..|s| - 1]), s[|s| - 1])
  }

  function Unfold(h: u64, s: seq<byte>): u64
    decreases |s|
  {
    if s == [] then h else Unfold(Unmix(h, s[|s| - 1]), s[..|s| - 1])
  }

  function Fnv1a64(s: seq<byte>): u64 {
    Fold(OFFSET_BASIS, s)
  }

  method HashBytes(value: seq<byte>) returns (hash: u64)
    ensures hash == Fnv1a64(value)
  {
    hash := OFFSET_BASIS;
    for i := 0 to |value|
      invariant hash == Fnv1a64(value[..i])
    {
      hash := XorByte(hash, value[i]);
      hash := Wrap64(hash as int * 0x100_0000_01b3);
      assert value[..i + 1][..i] == value[..i];
    }
    assert value[..|value|] == value;
  }

  /** The whole fold is a bijection: every hash state determines the state before any
      byte string, and every state is reached from some state. */
  lemma {:induction false} FoldInverts(h: u64, s: seq<byte>)
    ensures Unfold(Fold(h, s), s) == h
    ensures Fold(Unfold(h, s), s) == h
    decreases |s|
  {
    if s != [] {
      var b, before := s[|s| - 1], s[..|s| - 1];
      MixInverts(Fold(h, before), b);
      FoldInverts(h, before);
      FoldInverts(Unmix(h, b), before);
      MixInverts(h, b);
    }
  }

  /** Hashing a concatenation continues the fold. */
  lemma {:induction false} FoldConcat(h: u64, s: seq<byte>, t: seq<byte>)
    ensures Fold(h, s + t) == Fold(Fold(h, s), t)
    decreases |t|
  {
    if t == [] {
      assert s + t == s;
    } else {
      FoldConcat(h, s, t[..|t| - 1]);
      assert (s + t)[..|s + t| - 1] == s + t[..|t| - 1];
    }
  }

  /** Strings of one length that differ in exactly one byte never collide. */
  lemma OneByteNeverCollides(prefix: seq<byte>, a: byte, b: byte, suffix: seq<byte>)
    ensures Fnv1a64(prefix + [a] + suffix) == Fnv1a64(prefix + [b] + suffix) <==> a == b
  {
    FoldConcat(OFFSET_BASIS, prefix + [a], suffix);
    FoldConcat(OFFSET_BASIS, prefix + [b], suffix);
    FoldInverts(Fold(OFFSET_BASIS, prefix + [a]), suffix);
    FoldInverts(Fold(OFFSET_BASIS, prefix + [b]), suffix);
    assert (prefix + [a])[..|prefix|] == prefix && (prefix + [b])[..|prefix|] == prefix;
    if Fnv1a64(prefix + [a]) == Fnv1a64(prefix + [b]) {
      MixDistinguishesBytes(Fold(OFFSET_BASIS, prefix), a, b);
    }
  }

  /** A common tail neither makes nor breaks a collision. */
  lemma CommonTailIsIrrelevant(s: seq<byte>, t: seq<byte>, tail: seq<byte>)
    ensures Fnv1a64(s + tail) == Fnv1a64(t + tail) <==> Fnv1a64(s) == Fnv1a64(t)
  {
    FoldConcat(OFFSET_BASIS, s, tail);
    FoldConcat(OFFSET_BASIS, t, tail);
    FoldInverts(Fnv1a64(s), tail);
    FoldInverts(Fnv1a64(t), tail);
  }

  // ----- published values -----

  lemma OneByte(h: u64, b: byte)
    ensures Fold(h, [b]) == Mix(h, b) && Fold(h, []) == h
  {
    assert [b][..0] == [];
  }

  lemma XorNext(a: nat, b: nat, k: nat, r: nat)
    requires k > 0 && Xor(a / 2, b / 2, k - 1) == r
    ensures Xor(a, b, k) == (a + b) % 2 + 2 * r
  {
  }

  /** 0x25 and 0x61 give 0x44, bit by bit. */
  lemma SampleXor(a: nat, b: nat, k: nat)
    requires a == 0x25 && b == 0x61 && k == 8
    ensures Xor(a, b, k) == 0x44
  {
    XorNext(a / 128, b / 128, k - 7, Xor(a / 256, b / 256, k - 8));
    XorNext(a / 64, b / 64, k - 6, 0);
    XorNext(a / 32, b / 32, k - 5, 1);
    XorNext(a / 16, b / 16, k - 4, 2);
    XorNext(a / 8, b / 8, k - 3, 4);
    XorNext(a / 4, b / 4, k - 2, 8);
    XorNext(a / 2, b / 2, k - 1, 17);
    XorNext(a, b, k, 34);
  }

  lemma LowByte(h: u64)
    requires h == 0xcbf2_9ce4_8422_2325
    ensures XorByte(h, 97) == 0xcbf2_9ce4_8422_2344
  {
    assert h % 256 == 0x25 && h / 256 * 256 == 0xcbf2_9ce4_8422_2300;
    SampleXor(h % 256, 97, 8);
  }

  lemma OneProduct(h: u64)
    requires h == 0xcbf2_9ce4_8422_2344
    ensures Times(h) == 0xaf63_dc4c_8601_ec8c
  {
  }

  /** The hash of the empty text and of "a". */
  lemma PublishedHashes()
    ensures Fnv1a64([]) == 0xcbf2_9ce4_8422_2325
    ensures Fnv1a64([97]) == 0xaf63_dc4c_8601_ec8c
  {
    var h: u64 := 0xcbf2_9ce4_8422_2325;
    OneByte(h, 97);
    LowByte(h);
    OneProduct(XorByte(h, 97));
  }
}
