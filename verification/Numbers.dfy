/** Machine integers, checked and saturating arithmetic, and little-endian bytes. */
module Numbers {

  const U32_MAX: int := 0xFFFF_FFFF
  const U64_MAX: int := 0xFFFF_FFFF_FFFF_FFFF
  const U128_MAX: int := 0xFFFF_FFFF_FFFF_FFFF_FFFF_FFFF_FFFF_FFFF

  type u8 = x: int | 0 <= x < 256
  type u32 = x: int | 0 <= x <= U32_MAX
  type u64 = x: int | 0 <= x <= U64_MAX

  datatype Option<+T> = None | Some(value: T)

  /** `u64::try_from`, also the result of `checked_add` and `checked_sub` on u64 operands. */
  function Checked64(x: int): Option<u64> {
    if 0 <= x <= U64_MAX then Some(x) else None
  }

  /** The result of a `checked_mul` or `checked_sub` on u128 operands. */
  function Checked128(x: int): Option<nat> {
    if 0 <= x <= U128_MAX then Some(x) else None
  }

  function SaturatingAdd(x: u64, y: u64): u64 {
    if x + y > U64_MAX then U64_MAX else x + y
  }

  function SaturatingSub(x: u64, y: u64): u64 {
    if x < y then 0 else x - y
  }

  function Max(x: int, y: int): int {
    if x < y then y else x
  }

  function CeilDiv(a: nat, b: nat): nat
    requires b > 0
  {
    (a + b - 1) / b
  }

  // ----- Multiplication and division, in the exact shapes the pricing proofs use -----

  /** A product of two u64 values never leaves u128, so those `checked_mul`s never fail. */
  lemma ProductFits128(x: u64, y: u64)
    ensures 0 <= x * y <= U128_MAX
  {
    MulMono(x, U64_MAX, y, U64_MAX);
  }

  lemma MulMono(a: int, b: int, c: int, d: int)
    requires 0 <= a <= b && 0 <= c <= d
    ensures 0 <= a * c <= b * d
  {
    MulLeft(a, b, c);
    MulLeft(c, d, b);
    assert c * b == b * c && d * b == b * d;
    MulNonNeg(a, c);
  }

  lemma MulNonNeg(a: int, b: int)
    requires 0 <= a && 0 <= b
    ensures 0 <= a * b
  {
  }

  lemma MulLeft(a: int, b: int, c: int)
    requires a <= b && 0 <= c
    ensures a * c <= b * c
  {
    MulNonNeg(b - a, c);
    assert (b - a) * c == b * c - a * c;
  }

  /** `q` is the floor of `a / b`. */
  lemma FloorBounds(a: nat, b: nat)
    requires b > 0
    ensures (a / b) * b <= a < (a / b) * b + b
  {
    assert a == (a / b) * b + a % b;
  }

  lemma CeilBounds(a: nat, b: nat)
    requires b > 0
    ensures a <= CeilDiv(a, b) * b < a + b
  {
    FloorBounds(a + b - 1, b);
  }

  /** Cancelling a positive factor. */
  lemma CancelLe(a: int, b: int, c: int)
    requires c > 0 && a * c <= b * c
    ensures a <= b
  {
    if a > b {
      assert (a - b) * c == a * c - b * c;
      MulLeft(1, a - b, c);
    }
  }

  lemma CancelLt(a: int, b: int, c: int)
    requires c > 0 && a * c < b * c
    ensures a < b
  {
    if a >= b {
      MulLeft(b, a, c);
    }
  }

  /** The ceiling is the least integer whose multiple reaches `a`. */
  lemma CeilLeast(a: nat, b: nat, k: nat)
    requires b > 0 && a <= k * b
    ensures CeilDiv(a, b) <= k
  {
    CeilBounds(a, b);
    assert (k + 1) * b == k * b + b;
    CancelLt(CeilDiv(a, b), k + 1, b);
  }

  /** The floor is the greatest integer whose multiple stays within `a`. */
  lemma FloorGreatest(a: nat, b: nat, k: nat)
    requires b > 0 && k * b <= a
    ensures k <= a / b
  {
    FloorBounds(a, b);
    assert (a / b + 1) * b == (a / b) * b + b;
    CancelLt(k, a / b + 1, b);
  }

  lemma FloorMono(a: nat, c: nat, b: nat)
    requires b > 0 && a <= c
    ensures a / b <= c / b
  {
    FloorBounds(a, b);
    FloorGreatest(c, b, a / b);
  }

  lemma FloorLe(a: nat, b: nat, k: nat)
    requires b > 0 && a <= k * b
    ensures a / b <= k
  {
    FloorBounds(a, b);
    CancelLe(a / b, k, b);
  }

  // ----- Little-endian bytes -----

  function Pow256(n: nat): (p: nat)
    ensures p > 0
  {
    if n == 0 then 1 else 256 * Pow256(n - 1)
  }

  function ToLittleEndian(x: nat, n: nat): (b: seq<u8>)
    ensures |b| == n
  {
    if n == 0 then [] else [x % 256] + ToLittleEndian(x / 256, n - 1)
  }

  function FromLittleEndian(b: seq<u8>): (x: nat)
  {
    if |b| == 0 then 0 else b[0] + 256 * FromLittleEndian(b[1..])
  }

  lemma {:induction false} LittleEndianRoundTrip(x: nat, n: nat)
    requires x < Pow256(n)
    ensures FromLittleEndian(ToLittleEndian(x, n)) == x
  {
    if n > 0 {
      LittleEndianRoundTrip(x / 256, n - 1);
      assert ToLittleEndian(x, n)[1..] == ToLittleEndian(x / 256, n - 1);
    }
  }

  /** Byte `i` is digit `i` to base 256, the lowest first. */
  lemma {:induction false} LittleEndianDigits(x: nat, n: nat, i: nat)
    requires i < n
    ensures ToLittleEndian(x, n)[i] == x / Pow256(i) % 256
  {
    if i > 0 {
      LittleEndianDigits(x / 256, n - 1, i - 1);
      DivideTwice(x, 256, Pow256(i - 1));
    }
  }

  lemma DivideTwice(x: nat, a: nat, b: nat)
    requires a > 0 && b > 0
    ensures a * b > 0 && x / a / b == x / (a * b)
  {
    MulMono(1, a, 1, b);
    FloorBounds(x, a);
    FloorBounds(x / a, b);
    QuotientBelow(x, x / a, x / a / b, a, b);
    QuotientAbove(x, x / a, x / a / b, a, b);
    FloorIs(x, a * b, x / a / b);
  }

  /** The floor is the only quotient that leaves a remainder below the divisor. */
  lemma FloorIs(x: nat, d: nat, q: nat)
    requires d > 0 && q * d <= x < q * d + d
    ensures x / d == q
  {
    FloorGreatest(x, d, q);
    FloorBounds(x, d);
    assert (q + 1) * d == q * d + d;
    CancelLt(x / d, q + 1, d);
  }

  lemma QuotientBelow(x: nat, y: nat, q: nat, a: nat, b: nat)
    requires y * a <= x && q * b <= y
    ensures q * (a * b) <= x
  {
    MulMono(q * b, y, a, a);
    assert (q * b) * a == q * (a * b);
  }

  lemma QuotientAbove(x: nat, y: nat, q: nat, a: nat, b: nat)
    requires x < y * a + a && y < q * b + b
    ensures x < q * (a * b) + a * b
  {
    MulMono(y + 1, q * b + b, a, a);
    assert (q * b + b) * a == q * (a * b) + a * b;
    assert (y + 1) * a == y * a + a;
  }

  lemma LowByte(low: u8, rest: nat)
    ensures (low + 256 * rest) % 256 == low
    ensures (low + 256 * rest) / 256 == rest
  {
  }

  lemma {:induction false} LittleEndianInverse(b: seq<u8>)
    ensures FromLittleEndian(b) < Pow256(|b|)
    ensures ToLittleEndian(FromLittleEndian(b), |b|) == b
  {
    if |b| > 0 {
      var rest := FromLittleEndian(b[1..]);
      LittleEndianInverse(b[1..]);
      LowByte(b[0], rest);
      assert b == [b[0]] + b[1..];
    }
  }

  lemma Pow256Widths()
    ensures Pow256(4) == U32_MAX + 1
    ensures Pow256(8) == U64_MAX + 1
  {
    assert Pow256(2) == 0x1_0000;
    assert Pow256(4) == 0x1_0000_0000;
    assert Pow256(6) == 0x1_0000_0000_0000;
  }

  function U64Bytes(x: u64): (b: seq<u8>)
    ensures |b| == 8
  {
    ToLittleEndian(x, 8)
  }

  function U64Of(b: seq<u8>): (x: u64)
    requires |b| == 8
    ensures U64Bytes(x) == b
  {
    LittleEndianInverse(b);
    Pow256Widths();
    FromLittleEndian(b)
  }

  lemma U64RoundTrip(x: u64)
    ensures U64Of(U64Bytes(x)) == x
  {
    Pow256Widths();
    LittleEndianRoundTrip(x, 8);
  }

  function U32Bytes(x: u32): (b: seq<u8>)
    ensures |b| == 4
  {
    ToLittleEndian(x, 4)
  }

  function U32Of(b: seq<u8>): (x: u32)
    requires |b| == 4
    ensures U32Bytes(x) == b
  {
    LittleEndianInverse(b);
    Pow256Widths();
    FromLittleEndian(b)
  }

  lemma U32Zero()
    ensures U32Bytes(0) == [0, 0, 0, 0] && U32Of([0, 0, 0, 0]) == 0
  {
    assert ToLittleEndian(0, 2) == [0, 0];
    assert ToLittleEndian(0, 3) == [0, 0, 0];
    assert ToLittleEndian(0, 4) == [0, 0, 0, 0];
    U32RoundTrip(0);
  }

  lemma U32RoundTrip(x: u32)
    ensures U32Of(U32Bytes(x)) == x
  {
    Pow256Widths();
    LittleEndianRoundTrip(x, 4);
  }
}
