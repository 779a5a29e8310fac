/** The shared game-layer header: the GET_BIT bit-test macro and the
    offscreen_buffer record that the renderer draws into. */
module GameHeader {

  const INT32_MIN: int := -0x8000_0000
  const INT32_MAX: int := 0x7FFF_FFFF
  const TWO_POW_32: int := 0x1_0000_0000

  /** The fixed-width unsigned types of the header. */
  type u8 = n: int | 0 <= n < 0x100
  type u32 = n: int | 0 <= n < 0x1_0000_0000

  /** A value of the C `int` type (32 bits wide on the target). */
  predicate IsInt32(n: int) {
    INT32_MIN <= n <= INT32_MAX
  }

  /** `1 << n` for a shift that stays inside the value range. */
  function Pow2(n: nat): (r: nat)
    ensures r >= 1
  {
    if n == 0 then 1 else 2 * Pow2(n - 1)
  }

  /** Bitwise AND of two non-negative numbers, digit by binary digit. */
  function BitAnd(a: nat, b: nat): (r: nat)
    ensures r <= a && r <= b
    decreases a
  {
    if a == 0 || b == 0 then 0
    else 2 * BitAnd(a / 2, b / 2) + (if a % 2 == 1 && b % 2 == 1 then 1 else 0)
  }

  /** Bitwise OR of two non-negative numbers, digit by binary digit. */
  function BitOr(a: nat, b: nat): (r: nat)
    ensures a <= r <= a + b && b <= r
    decreases a
  {
    if a == 0 then b
    else if b == 0 then a
    else 2 * BitOr(a / 2, b / 2) + (if a % 2 == 1 || b % 2 == 1 then 1 else 0)
  }

  /** `a << k`, for a shift whose result stays inside the value range. */
  function ShiftLeft(a: nat, k: nat): (r: nat) {
    if k == 0 then a else 2 * ShiftLeft(a, k - 1)
  }

  lemma {:induction false} ShiftLeftIsProduct(a: nat, k: nat)
    ensures ShiftLeft(a, k) == a * Pow2(k)
  {
    if k > 0 {
      ShiftLeftIsProduct(a, k - 1);
    }
  }

  /** OR-ing a number below `1 << k` into a value shifted left by `k` adds it:
      the two have no bit in common. */
  lemma {:induction false} BitOrDisjoint(a: nat, k: nat, b: nat)
    requires b < Pow2(k)
    ensures BitOr(ShiftLeft(a, k), b) == ShiftLeft(a, k) + b
    decreases k
  {
    if k > 0 {
      BitOrDisjoint(a, k - 1, b / 2);
    }
  }

  /** Bit `p` of `n`: the lowest binary digit once `n` has been halved `p` times. */
  predicate BitSet(n: nat, p: nat) {
    if p == 0 then n % 2 == 1 else BitSet(n / 2, p - 1)
  }

  /** The 32 bits of a C `int`, read as an unsigned number (two's complement). */
  function Bits32(v: int): (u: nat)
    requires IsInt32(v)
    ensures u < TWO_POW_32
    ensures v >= 0 ==> u == v
    ensures v < 0 ==> u == v + TWO_POW_32
  {
    v % TWO_POW_32
  }

  lemma {:induction false} ZeroHasNoBitSet(p: nat)
    ensures !BitSet(0, p)
  {
    if p > 0 {
      ZeroHasNoBitSet(p - 1);
    }
  }

  /** Masking with a single power of two keeps exactly that bit. */
  lemma {:induction false} BitAndPow2(a: nat, p: nat)
    ensures BitAnd(a, Pow2(p)) == if BitSet(a, p) then Pow2(p) else 0
    decreases p
  {
    if p == 0 {
    } else if a == 0 {
      ZeroHasNoBitSet(p);
    } else {
      assert Pow2(p) / 2 == Pow2(p - 1) && Pow2(p) % 2 == 0;
      BitAndPow2(a / 2, p - 1);
    }
  }

  /** GET_BIT(var, position) = var & (1 << position), for a shift that does
      not reach the sign bit. The result is 0 or exactly the tested bit. */
  function GetBit(v: int, position: nat): (r: int)
    requires IsInt32(v) && position < 31
    ensures r == 0 || r == Pow2(position)
    ensures r != 0 <==> BitSet(Bits32(v), position)
    ensures v == 0 ==> r == 0
  {
    BitAndPow2(Bits32(v), position);
    BitAnd(Bits32(v), Pow2(position))
  }

  /** The buffer the game layer renders into: a region of 32-bit pixels,
      its size in pixels and the byte distance between row starts. There is
      no bytes-per-pixel field: a pixel is always one 32-bit word. */
  datatype OffscreenBuffer = OffscreenBuffer(
    memory: array?<u32>,
    width: int,
    height: int,
    pitch: int)
}
