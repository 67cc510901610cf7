/** Integer building blocks shared by the calibration and sixaxis code:
    the C# integer widths and casts they rely on, little-endian 16-bit
    fields in byte buffers, truncating division and banker's rounding. */
module Wire {

  /** A C# `byte`. */
  type byte = x: int | 0 <= x < 0x100
  /** A C# `ushort`. */
  type uint16 = x: int | 0 <= x < 0x1_0000
  /** A C# `short`. */
  type int16 = x: int | -0x8000 <= x < 0x8000

  const INT16_MIN: int := -0x8000
  const INT16_MAX: int := 0x7FFF
  const UINT16_MOD: int := 0x1_0000

  function Abs(x: int): nat { if x < 0 then -x else x }

  /** The C# `(short)` cast of an `int`: the unique 16-bit signed value
      congruent to `x` modulo 2^16. */
  function ToInt16(x: int): (r: int16)
    ensures (r - x) % UINT16_MOD == 0
    ensures INT16_MIN <= x <= INT16_MAX ==> r == x
  {
    var m := x % UINT16_MOD;
    if m < 0x8000 then m else m - UINT16_MOD
  }

  /** The C# `(ushort)` cast of an `int`. */
  function ToUInt16(x: int): (r: uint16)
    ensures (r - x) % UINT16_MOD == 0
    ensures 0 <= x < UINT16_MOD ==> r == x
  {
    x % UINT16_MOD
  }

  /** Two values congruent modulo 2^16 have the same `(short)` cast. */
  lemma ToInt16Congruent(x: int, y: int)
    requires (x - y) % UINT16_MOD == 0
    ensures ToInt16(x) == ToInt16(y)
  {
    var k := (x - y) / UINT16_MOD;
    assert x == y + k * UINT16_MOD;
    assert x % UINT16_MOD == y % UINT16_MOD;
  }

  /** `lo | hi << 8` on two bytes. */
  function U16(lo: byte, hi: byte): uint16
  {
    lo + 0x100 * hi
  }

  /** The low and high byte of `lo | hi << 8` are `lo` and `hi`. */
  lemma U16Bytes(lo: byte, hi: byte)
    ensures U16(lo, hi) % 0x100 == lo && U16(lo, hi) / 0x100 == hi
  {
  }

  /** The unsigned little-endian 16-bit value at `s[i]`, `s[i + 1]`. */
  function ReadUInt16(s: seq<byte>, i: int): uint16
    requires 0 <= i && i + 1 < |s|
  {
    U16(s[i], s[i + 1])
  }

  /** The signed little-endian 16-bit value at `s[i]`, `s[i + 1]`. */
  function ReadInt16(s: seq<byte>, i: int): int16
    requires 0 <= i && i + 1 < |s|
  {
    var u := ReadUInt16(s, i);
    if u < 0x8000 then u else u - UINT16_MOD
  }

  /** Reading a signed short is the `(short)` cast of the unsigned one. */
  lemma ReadInt16Cast(s: seq<byte>, i: int)
    requires 0 <= i && i + 1 < |s|
    ensures ReadInt16(s, i) == ToInt16(ReadUInt16(s, i))
  {
  }

  /** The two bytes `(byte)((ushort)v & 0xFF)`, `(byte)((ushort)v >> 8)`. */
  function EncodeInt16(v: int16): (b: seq<byte>)
    ensures |b| == 2
  {
    var u := if v < 0 then v + UINT16_MOD else v;
    [u % 0x100, u / 0x100]
  }

  /** Writing a value as two little-endian bytes and reading them back
      gives the value again. */
  lemma EncodeThenRead(v: int16)
    ensures ReadInt16(EncodeInt16(v), 0) == v
  {
    var b := EncodeInt16(v);
    var u := ToUInt16(v);
    assert ReadUInt16(b, 0) == u;
    ToInt16Congruent(u, v);
    assert ReadInt16(b, 0) == ToInt16(u);
  }

  /** Reading two bytes as a little-endian value and writing it back gives
      the same two bytes. */
  lemma ReadThenEncode(s: seq<byte>, i: int)
    requires 0 <= i && i + 1 < |s|
    ensures EncodeInt16(ReadInt16(s, i)) == s[i..i + 2]
  {
    var u := ReadUInt16(s, i);
    var v := ReadInt16(s, i);
    U16Bytes(s[i], s[i + 1]);
    assert ToUInt16(v) == u by {
      assert (u - v) % UINT16_MOD == 0;
      var k := (u - v) / UINT16_MOD;
      assert v == u - k * UINT16_MOD;
    }
  }

  /** `s` with the little-endian encoding of `v` written at `s[i]`, `s[i + 1]`. */
  function WriteInt16(s: seq<byte>, i: int, v: int16): (r: seq<byte>)
    requires 0 <= i && i + 1 < |s|
    ensures |r| == |s|
    ensures forall j :: 0 <= j < |s| && j != i && j != i + 1 ==> r[j] == s[j]
    ensures ReadInt16(r, i) == v
  {
    var b := EncodeInt16(v);
    EncodeThenRead(v);
    s[i := b[0]][i + 1 := b[1]]
  }

  /** Writing a field leaves every field that does not overlap it as it was. */
  lemma WriteKeepsOtherField(s: seq<byte>, i: int, v: int16, j: int)
    requires 0 <= i && i + 1 < |s| && 0 <= j && j + 1 < |s|
    requires j + 1 < i || i + 1 < j
    ensures ReadInt16(WriteInt16(s, i, v), j) == ReadInt16(s, j)
  {
    var r := WriteInt16(s, i, v);
    assert r[j] == s[j] && r[j + 1] == s[j + 1];
  }

  /** C# integer division, which truncates toward zero: the remainder is
      smaller than the divisor in magnitude and has the sign of the dividend. */
  function TruncDiv(a: int, b: int): (q: int)
    requires b != 0
    ensures Abs(a - q * b) < Abs(b)
    ensures a >= 0 ==> a - q * b >= 0
    ensures a <= 0 ==> a - q * b <= 0
  {
    var m := Abs(a) / Abs(b);
    TruncDivRemainder(a, b, m);
    if (a >= 0) == (b > 0) then m else -m
  }

  /** The quotient of the magnitudes, given the sign of the true quotient,
      leaves a remainder with the dividend's sign and less than the divisor
      in magnitude. */
  lemma TruncDivRemainder(a: int, b: int, m: int)
    requires b != 0 && m == Abs(a) / Abs(b)
    ensures var q := if (a >= 0) == (b > 0) then m else -m;
      Abs(a - q * b) < Abs(b) && (a >= 0 ==> a - q * b >= 0) && (a <= 0 ==> a - q * b <= 0)
  {
    var r := Abs(a) % Abs(b);
    DivMod(Abs(a), Abs(b));
    var q := if (a >= 0) == (b > 0) then m else -m;
    if a >= 0 && b > 0 {
      assert a - q * b == r;
    } else if a >= 0 {
      MulNeg(m, b);
      assert q * b == m * Abs(b);
      assert a - q * b == r;
    } else if b > 0 {
      MulNeg(m, b);
      assert q * b == -(m * Abs(b));
      assert a - q * b == -r;
    } else {
      MulNeg(m, -b);
      assert q * b == -(m * Abs(b));
      assert a - q * b == -r;
    }
  }

  /** Euclidean division by a positive divisor. */
  lemma DivMod(n: int, d: int)
    requires d > 0
    ensures n == (n / d) * d + n % d && 0 <= n % d < d
  {
  }

  lemma MulNeg(a: int, b: int)
    ensures (-a) * b == -(a * b) && a * (-b) == -(a * b) && (-a) * (-b) == a * b
  {
  }

  /** C#'s `Math.Round` (midpoint to even) of the rational `n / d` with a
      positive denominator: the nearest integer, and the even one of the two
      on a tie. */
  function RoundHalfEven(n: int, d: int): (k: int)
    requires d > 0
    ensures -d <= 2 * (n - k * d) <= d
    ensures 2 * (n - k * d) == d || 2 * (n - k * d) == -d ==> k % 2 == 0
  {
    var q, r := n / d, n % d;
    DivMod(n, d);
    MulSucc(q, d);
    if 2 * r < d then q
    else if 2 * r > d then q + 1
    else if q % 2 == 0 then q
    else q + 1
  }

  /** The two properties of `RoundHalfEven` pin its result down: no other
      integer is as close to `n / d` and wins the tie-break. */
  lemma RoundHalfEvenUnique(n: int, d: int, k: int)
    requires d > 0
    requires -d <= 2 * (n - k * d) <= d
    requires 2 * (n - k * d) == d || 2 * (n - k * d) == -d ==> k % 2 == 0
    ensures k == RoundHalfEven(n, d)
  {
    var k' := RoundHalfEven(n, d);
    if k != k' {
      var lo, hi := if k < k' then k else k', if k < k' then k' else k;
      MulGap(lo, hi, d);
      if hi > lo + 1 {
        MulGap(lo + 1, hi, d);
        MulSucc(lo, d);
        assert false;
      }
      MulSucc(lo, d);
      assert false;
    }
  }

  /** `Math.Round` of the rational `n / d` for a denominator of either
      sign: the nearest integer, the even one on a tie. */
  function RoundRatio(n: int, d: int): (k: int)
    requires d != 0
    ensures 2 * Abs(n - k * d) <= Abs(d)
    ensures 2 * Abs(n - k * d) == Abs(d) ==> k % 2 == 0
  {
    if d > 0 then RoundHalfEven(n, d)
    else
      var k := RoundHalfEven(-n, -d);
      MulNeg(k, d);
      k
  }

  /** No other integer is as close to `n / d` and wins the tie-break. */
  lemma RoundRatioUnique(n: int, d: int, k: int)
    requires d != 0
    requires 2 * Abs(n - k * d) <= Abs(d)
    requires 2 * Abs(n - k * d) == Abs(d) ==> k % 2 == 0
    ensures k == RoundRatio(n, d)
  {
    if d > 0 {
      RoundHalfEvenUnique(n, d, k);
    } else {
      MulNeg(k, d);
      RoundHalfEvenUnique(-n, -d, k);
    }
  }

  /** Rounding `n / d` is monotone in the ratio: in `n` for a positive
      denominator, against it for a negative one. */
  lemma RoundRatioMonotone(n1: int, n2: int, d: int)
    requires (d > 0 && n1 <= n2) || (d < 0 && n2 <= n1)
    ensures RoundRatio(n1, d) <= RoundRatio(n2, d)
  {
    if d > 0 {
      RoundHalfEvenMonotone(n1, n2, d);
    } else {
      RoundHalfEvenMonotone(-n1, -n2, -d);
    }
  }

  /** Rounding to even is symmetric: rounding `-n / d` gives the negation
      of rounding `n / d`. */
  lemma RoundHalfEvenNeg(n: int, d: int)
    requires d > 0
    ensures RoundHalfEven(-n, d) == -RoundHalfEven(n, d)
  {
    var k := RoundHalfEven(n, d);
    MulNeg(k, d);
    assert 2 * (-n - (-k) * d) == -(2 * (n - k * d));
    RoundHalfEvenUnique(-n, d, -k);
  }

  /** Distinct multiples of a positive `d` are at least `d` apart. */
  lemma MulGap(a: int, b: int, d: int)
    requires a < b && d > 0
    ensures a * d + d <= b * d
  {
    var x := b - a;
    assert b * d - a * d == x * d;
    assert x * d == (x - 1) * d + d;
    assert (x - 1) * d >= 0;
  }

  lemma MulSucc(a: int, d: int)
    ensures (a + 1) * d == a * d + d
  {
  }

  /** Rounding `n / d` is monotone in `n`. */
  lemma RoundHalfEvenMonotone(n1: int, n2: int, d: int)
    requires d > 0 && n1 <= n2
    ensures RoundHalfEven(n1, d) <= RoundHalfEven(n2, d)
  {
    var k1, k2 := RoundHalfEven(n1, d), RoundHalfEven(n2, d);
    if k1 > k2 {
      MulGap(k2, k1, d);
      assert false;
    }
  }
}
