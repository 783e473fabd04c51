/** Fixed-width words of the BPF programs, with their wrap-around and
    saturation written out over unbounded integers. */
module Words {
  const TWO32: int := 0x1_0000_0000
  const TWO64: int := 0x1_0000_0000_0000_0000
  const U32_MAX: u32 := 0xFFFF_FFFF
  const U64_MAX: u64 := 0xFFFF_FFFF_FFFF_FFFF

  type u32 = n: int | 0 <= n < 0x1_0000_0000
  type u64 = n: int | 0 <= n < 0x1_0000_0000_0000_0000

  type byte = n: int | 0 <= n < 256

  datatype Option<+T> = None | Some(value: T)

  /** The lower-case ASCII digit of a hexadecimal value. */
  function HexDigit(n: int): byte
    requires 0 <= n < 16
  {
    if n < 10 then 48 + n else 87 + n
  }

  function Min(a: int, b: int): int {
    if a <= b then a else b
  }

  function Wrap32(n: int): u32 {
    n % TWO32
  }

  function Wrap64(n: int): u64 {
    n % TWO64
  }

  function Saturate32(n: u64): u32 {
    if n > U32_MAX then U32_MAX else n
  }

  /** The overflow test of calloc, in 64-bit wrapping arithmetic on 32-bit halves. */
  method MulOverflow64(a: u64, b: u64) returns (overflow: bool, out: u64)
    ensures overflow <==> a * b >= TWO64
    ensures !overflow ==> out == a * b
  {
    var ah, al := a / TWO32, a % TWO32;
    var bh, bl := b / TWO32, b % TWO32;
    ghost var product, hh := HalvesProduct(a, b, ah, al, bh, bl);
    var hl, lh, ll := ah * bl, bh * al, al * bl;
    overflow, out := CombineHalves(ah, bh, hl, lh, ll, product, hh);
  }

  method CombineHalves(ah: u32, bh: u32, hl: u64, lh: u64, ll: u64, ghost product: int, ghost hh: int)
    returns (overflow: bool, out: u64)
    requires product == hh * TWO64 + (hl + lh) * TWO32 + ll
    requires hh >= 0 && (ah != 0 && bh != 0 ==> hh >= 1) && (ah == 0 || bh == 0 ==> hh == 0)
    requires (ah == 0 ==> hl == 0) && (bh == 0 ==> lh == 0)
    ensures overflow <==> product >= TWO64
    ensures !overflow ==> out == product
  {
    out := 0;
    if ah != 0 && bh != 0 {
      return true, out;
    }
    var mid := Wrap64(hl + lh);
    if mid > U32_MAX {
      return true, out;
    }
    var high := Wrap64(mid * TWO32);
    var res := Wrap64(high + ll);
    if res < ll {
      return true, out;
    }
    return false, res;
  }

  lemma ProductMonotone(x: int, x': int, y: int, y': int)
    requires 0 <= x <= x' && 0 <= y <= y'
    ensures 0 <= x * y <= x' * y'
  {
    assert x * y <= x' * y <= x' * y';
  }

  /** The schoolbook product of the halves, and the ranges of its parts. */
  lemma HalvesProduct(a: u64, b: u64, ah: int, al: int, bh: int, bl: int) returns (product: int, hh: int)
    requires 0 <= ah <= U32_MAX && 0 <= al <= U32_MAX && 0 <= bh <= U32_MAX && 0 <= bl <= U32_MAX
    requires a == ah * TWO32 + al && b == bh * TWO32 + bl
    ensures product == a * b
    ensures product == hh * TWO64 + (ah * bl + bh * al) * TWO32 + al * bl
    ensures hh >= 0 && (ah != 0 && bh != 0 ==> hh >= 1) && (ah == 0 || bh == 0 ==> hh == 0)
    ensures (ah == 0 ==> ah * bl == 0) && (bh == 0 ==> bh * al == 0)
    ensures 0 <= ah * bl < TWO64 && 0 <= bh * al < TWO64 && 0 <= al * bl < TWO64
  {
    hh := ah * bh;
    product := a * b;
    ProductMonotone(if ah == 0 then 0 else 1, ah, if bh == 0 then 0 else 1, bh);
    ProductMonotone(ah, U32_MAX, bl, U32_MAX);
    ProductMonotone(bh, U32_MAX, al, U32_MAX);
    ProductMonotone(al, U32_MAX, bl, U32_MAX);
    ProductExpands(ah, al, bh, bl, TWO32);
  }

  lemma ProductExpands(ah: int, al: int, bh: int, bl: int, k: int)
    ensures (ah * k + al) * (bh * k + bl) == ah * bh * (k * k) + (ah * bl + bh * al) * k + al * bl
  {
  }
}
