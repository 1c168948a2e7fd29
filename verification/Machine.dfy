/**
 * Fixed-width machine integers and the arithmetic the scheduler and the
 * ranking engine perform on them: unsigned 64-bit wrap-around (BPF side),
 * the signed reading of a 64-bit pattern, Java's truncating division and
 * Java's narrowing cast from long to int.
 */
module Machine {

  const TWO_31: int := 0x8000_0000
  const TWO_32: int := 0x1_0000_0000
  const TWO_63: int := 0x8000_0000_0000_0000
  const TWO_64: int := 0x1_0000_0000_0000_0000

  newtype u8 = x: int | 0 <= x < 0x100
  newtype u32 = x: int | 0 <= x < 0x1_0000_0000
  newtype u64 = x: int | 0 <= x < 0x1_0000_0000_0000_0000

  /** The bit pattern of the signed 32-bit value -1 read as unsigned. */
  const U32_ALL_ONES: u32 := 0xFFFF_FFFF
  const U64_MAX: u64 := 0xFFFF_FFFF_FFFF_FFFF

  /** Unsigned 64-bit addition as C performs it: modulo 2^64. */
  function Add64(a: u64, b: u64): (r: u64)
    ensures a as int + b as int < TWO_64 ==> r as int == a as int + b as int
    ensures a as int + b as int >= TWO_64 ==> r as int == a as int + b as int - TWO_64
  {
    ((a as int + b as int) % TWO_64) as u64
  }

  /** Unsigned 64-bit subtraction as C performs it: modulo 2^64. */
  function Sub64(a: u64, b: u64): (r: u64)
    ensures b <= a ==> r as int == a as int - b as int
    ensures a < b ==> r as int == a as int - b as int + TWO_64
  {
    ((a as int - b as int) % TWO_64) as u64
  }

  /**
   * Unsigned 64-bit division as the eBPF instruction set defines it: the
   * quotient rounded down, and 0 for a zero divisor.
   */
  function Div64(a: u64, b: u64): (r: u64)
    ensures r <= a
    ensures b == 0 ==> r == 0
    ensures b > 0 ==> r as int * b as int <= a as int < (r as int + 1) * b as int
  {
    if b == 0 then 0 else DivBounds(a as int, b as int); (a as int / b as int) as u64
  }

  /** Unsigned 32-bit division as the eBPF instruction set defines it: 0 for a zero divisor. */
  function Div32(a: u32, b: nat): (r: u32)
    ensures r <= a
    ensures b == 0 ==> r == 0
    ensures b > 0 ==> r as int * b <= a as int < (r as int + 1) * b
  {
    if b == 0 then 0 else DivBounds(a as int, b); (a as int / b) as u32
  }

  /** The two's-complement reading of a 64-bit pattern, as the cast `(long)` gives it. */
  function Signed64(x: u64): (r: int)
    ensures -TWO_63 <= r < TWO_63
    ensures r < 0 <==> x as int >= TWO_63
    ensures (r - x as int) % TWO_64 == 0
  {
    if x as int < TWO_63 then x as int else x as int - TWO_64
  }

  function Abs(x: int): (r: nat)
    ensures r == x || r == -x
  {
    if x < 0 then -x else x
  }

  function Min(a: int, b: int): (r: int)
    ensures r <= a && r <= b && (r == a || r == b)
  {
    if a <= b then a else b
  }

  function Max(a: int, b: int): (r: int)
    ensures r >= a && r >= b && (r == a || r == b)
  {
    if a >= b then a else b
  }

  /**
   * Java's integer division, which truncates toward zero (Dafny's `/` is
   * Euclidean and differs on negative operands).
   */
  function JavaDiv(a: int, b: int): (r: int)
    requires b != 0
    ensures a >= 0 && b > 0 ==> r == a / b
    ensures (a >= 0) == (b > 0) ==> r >= 0
  {
    var q := Abs(a) / Abs(b);
    if (a < 0) == (b < 0) then q else -q
  }

  /**
   * JavaDiv truncates toward zero: its magnitude is the floor of |a| / |b|,
   * and a non-zero quotient is negative exactly when the operands' signs differ.
   */
  lemma JavaDivTruncates(a: int, b: int)
    requires b != 0
    ensures Abs(JavaDiv(a, b)) * Abs(b) <= Abs(a) < (Abs(JavaDiv(a, b)) + 1) * Abs(b)
    ensures JavaDiv(a, b) != 0 ==> (JavaDiv(a, b) < 0 <==> (a < 0) != (b < 0))
  {
    var q := Abs(a) / Abs(b);
    DivBounds(Abs(a), Abs(b));
    assert Abs(JavaDiv(a, b)) == q;
  }

  /** Java's narrowing cast `(int)` of a long: keeps the low 32 bits, read as signed. */
  function ToInt32(x: int): (r: int)
    ensures -TWO_31 <= r < TWO_31
    ensures (r - x) % TWO_32 == 0
    ensures -TWO_31 <= x < TWO_31 ==> r == x
  {
    var low := x % TWO_32;
    if low < TWO_31 then low else low - TWO_32
  }

  /** The quotient rounded down: at most the dividend, and the largest q with q * b <= a. */
  lemma DivBounds(a: nat, b: int)
    requires b > 0
    ensures a / b <= a
    ensures (a / b) * b <= a < (a / b + 1) * b
  {
    var q := a / b;
    assert q * b + a % b == a;
    assert (q + 1) * b == q * b + b;
    MulAtLeast(q, b);
  }

  lemma {:induction false} MulAtLeast(q: nat, b: int)
    requires b >= 1
    ensures q * b >= q
    decreases b
  {
    if b > 1 {
      MulAtLeast(q, b - 1);
      assert q * b == q * (b - 1) + q;
    }
  }
}
