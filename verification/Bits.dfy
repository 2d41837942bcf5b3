/** Words and bytes as natural numbers, and their binary digits. A shift is a multiplication or a
    division by a power of two; a mask selects digits. */
module Bits {
  import opened Sequences

  type Byte = b: nat | b < 256

  const TWO32: int := 0x1_0000_0000
  const TWO63: int := 0x8000_0000_0000_0000
  const TWO64: int := 0x1_0000_0000_0000_0000

  /** Digit k of x, counted from the least significant: (x >> k) & 1. */
  predicate TestBit(x: nat, k: nat)
    decreases k
  {
    if k == 0 then x % 2 == 1 else TestBit(x / 2, k - 1)
  }

  function Digit(v: bool): nat {
    if v then 1 else 0
  }

  /** x with digit k replaced by v: (x & ~(1 << k)) | (v << k). */
  function PutBit(x: nat, k: nat, v: bool): nat
    decreases k
  {
    if k == 0 then x - x % 2 + Digit(v) else 2 * PutBit(x / 2, k - 1, v) + x % 2
  }

  lemma {:induction false} PutTest(x: nat, k: nat, v: bool, m: nat)
    ensures TestBit(PutBit(x, k, v), m) == if m == k then v else TestBit(x, m)
    decreases k
  {
    var y := PutBit(x, k, v);
    if k == 0 {
      assert y / 2 == x / 2;
    } else {
      assert y / 2 == PutBit(x / 2, k - 1, v) && y % 2 == x % 2;
      if m > 0 { PutTest(x / 2, k - 1, v, m - 1); }
    }
  }

  lemma {:induction false} PutBelow(x: nat, k: nat, v: bool, n: nat)
    requires k < n && x < Pow2(n)
    ensures PutBit(x, k, v) < Pow2(n)
    decreases k
  {
    hide Pow2;
    Pow2Next(n - 1);
    if k > 0 { PutBelow(x / 2, k - 1, v, n - 1); }
  }

  lemma {:induction false} Pow2Add(a: nat, b: nat)
    ensures Pow2(a + b) == Pow2(a) * Pow2(b)
  {
    if a > 0 {
      Pow2Add(a - 1, b);
      Pow2Next(a - 1);
      Pow2Next(a - 1 + b);
    }
  }

  lemma {:induction false} Pow2Grows(a: nat, b: nat)
    requires a <= b
    ensures Pow2(a) <= Pow2(b)
    decreases b - a
  {
    if a < b { Pow2Grows(a, b - 1); }
  }

  lemma Pow2Zero()
    ensures Pow2(0) == 1
  {
  }

  lemma Pow2Next(n: nat)
    ensures Pow2(n + 1) == 2 * Pow2(n)
  {
  }

  lemma Pow2Of8()
    ensures Pow2(8) == 256
  {
  }

  lemma Pow2Values()
    ensures Pow2(8) == 256 && Pow2(32) == TWO32 && Pow2(63) == TWO63 && Pow2(64) == TWO64
  {
    hide Pow2;
    Pow2Of8();
    Pow2Add(8, 8);
    Pow2Add(16, 16);
    Pow2Add(32, 32);
    Pow2Next(63);
  }

  // ------------------------------------------------- numbers and bit strings

  /** The number a string of bits spells, most significant first. */
  function Value(bs: seq<bool>): (v: nat)
    ensures v < Pow2(|bs|)
  {
    if bs == [] then 0
    else 2 * Value(bs[..|bs| - 1]) + Digit(bs[|bs| - 1])
  }

  /** The n low digits of v, most significant first. */
  function Spell(v: nat, n: nat): (bs: seq<bool>)
    ensures |bs| == n
  {
    if n == 0 then [] else Spell(v / 2, n - 1) + [v % 2 == 1]
  }

  lemma {:induction false} SpellDigit(v: nat, n: nat, j: nat)
    requires j < n
    ensures Spell(v, n)[j] == TestBit(v, n - 1 - j)
  {
    if j < n - 1 { SpellDigit(v / 2, n - 1, j); }
  }

  /** A field of n bits keeps a number modulo 2^n. */
  lemma {:induction false} ValueSpell(v: nat, n: nat)
    ensures Value(Spell(v, n)) == v % Pow2(n)
  {
    if n > 0 {
      var bs := Spell(v, n);
      assert bs[..n - 1] == Spell(v / 2, n - 1);
      ValueSpell(v / 2, n - 1);
      ModHalf(v, Pow2(n - 1));
    }
  }

  lemma ModHalf(v: nat, p: nat)
    requires p > 0
    ensures v % (2 * p) == 2 * (v / 2 % p) + v % 2
  {
    var q, r := v / 2 / p, v / 2 % p;
    assert v == 2 * (p * q + r) + v % 2;
    ModIs(v, 2 * p, q, 2 * r + v % 2);
  }

  /** Division with remainder is unique. */
  lemma ModIs(x: int, m: int, q: int, r: int)
    requires m > 0 && x == m * q + r && 0 <= r < m
    ensures x % m == r && x / m == q
  {
    var d := x / m - q;
    assert m * d == r - x % m;
    Multiple(m, d);
  }

  lemma ModFirst(v: int, low: int, p: int)
    requires p > 0
    ensures (v % p - low) % p == (v - low) % p
  {
    var a, m := v / p, v % p;
    var b, r := (m - low) / p, (m - low) % p;
    assert v == p * a + m && m - low == p * b + r;
    assert p * (a + b) == p * a + p * b;
    ModIs(v - low, p, a + b, r);
  }

  lemma Multiple(m: int, d: int)
    requires m > 0
    ensures (d >= 1 ==> m * d >= m) && (d <= -1 ==> m * d <= -m)
  {
  }

  lemma {:induction false} SpellValue(bs: seq<bool>)
    ensures Spell(Value(bs), |bs|) == bs
  {
    if bs != [] {
      var v := Value(bs);
      SpellValue(bs[..|bs| - 1]);
      assert v / 2 == Value(bs[..|bs| - 1]) && (v % 2 == 1) == bs[|bs| - 1];
    }
  }

  lemma {:induction false} ZeroBits(k: nat)
    ensures !TestBit(0, k)
  {
    if k > 0 { ZeroBits(k - 1); }
  }

  lemma SameByte(a: Byte, b: Byte)
    requires forall m: nat | m < 8 :: TestBit(a, m) == TestBit(b, m)
    ensures a == b
  {
    hide TestBit, Spell, Value, Pow2;
    Pow2Of8();
    ValueSpell(a, 8);
    ValueSpell(b, 8);
    forall j | 0 <= j < 8 ensures Spell(a, 8)[j] == Spell(b, 8)[j] {
      SpellDigit(a, 8, j);
      SpellDigit(b, 8, j);
    }
    assert Spell(a, 8) == Spell(b, 8);
  }

  lemma {:induction false} TestByDivision(x: nat, k: nat)
    ensures TestBit(x, k) <==> x / Pow2(k) % 2 == 1
  {
    if k > 0 {
      TestByDivision(x / 2, k - 1);
      HalfThenDivide(x, Pow2(k - 1));
    }
  }

  lemma HalfThenDivide(x: nat, c: nat)
    requires c > 0
    ensures x / 2 / c == x / (2 * c)
  {
    var q, r := x / 2 / c, x / 2 % c;
    assert x == 2 * (c * q + r) + x % 2;
    ModIs(x, 2 * c, q, 2 * r + x % 2);
  }

  // ---------------------------------------------------------- strings of bytes

  /** Bit k of a string of bytes; bit 0 is the most significant of the first byte, and the string
      is followed by zeros. */
  predicate BitAt(p: seq<Byte>, k: nat) {
    k / 8 < |p| && TestBit(p[k / 8], 7 - k % 8)
  }

  function Field(p: seq<Byte>, offset: nat, n: nat): (bs: seq<bool>)
    ensures |bs| == n && forall j | 0 <= j < n :: bs[j] == BitAt(p, offset + j)
  {
    seq(n, j requires 0 <= j < n => BitAt(p, offset + j))
  }

  /** Byte i of a string followed by zeros. */
  function ByteAt(s: seq<Byte>, i: nat): Byte {
    if i < |s| then s[i] else 0
  }

  lemma BitOfByte(s: seq<Byte>, k: nat)
    ensures BitAt(s, k) == TestBit(ByteAt(s, k / 8), 7 - k % 8)
  {
    hide TestBit;
    ZeroBits(7 - k % 8);
  }

  // --------------------------------------------------------- bitwise operations

  datatype Operation = And | Or | Xor | Not

  function Combine(op: Operation, a: bool, b: bool): bool {
    match op
    case And => a && b
    case Or => a || b
    case Xor => a != b
    case Not => !a
  }

  /** The operation on n digits at once. */
  function Bitwise(op: Operation, x: nat, y: nat, n: nat): (r: nat)
    ensures r < Pow2(n)
    decreases n
  {
    if n == 0 then 0 else 2 * Bitwise(op, x / 2, y / 2, n - 1) + Digit(Combine(op, x % 2 == 1, y % 2 == 1))
  }

  lemma BitwiseStep(op: Operation, x: nat, y: nat, n: nat)
    requires n > 0
    ensures var r, d := Bitwise(op, x, y, n), Digit(Combine(op, x % 2 == 1, y % 2 == 1));
            r == 2 * Bitwise(op, x / 2, y / 2, n - 1) + d && r / 2 == Bitwise(op, x / 2, y / 2, n - 1) && r % 2 == d
  {
    hide Combine;
  }

  lemma {:induction false} BitwiseBit(op: Operation, x: nat, y: nat, n: nat, k: nat)
    requires k < n
    ensures TestBit(Bitwise(op, x, y, n), k) == Combine(op, TestBit(x, k), TestBit(y, k))
    decreases n
  {
    hide Pow2, Bitwise;
    BitwiseStep(op, x, y, n);
    if k > 0 { BitwiseBit(op, x / 2, y / 2, n - 1, k - 1); }
  }

  function Shift(x: nat, k: nat): nat {
    if k == 0 then x else 2 * Shift(x, k - 1)
  }

  lemma Shift8(x: nat)
    ensures Shift(x, 8) == 256 * x
  {
    assert Shift(x, 1) == 2 * x && Shift(x, 2) == 4 * x && Shift(x, 3) == 8 * x;
    assert Shift(x, 4) == 16 * x && Shift(x, 5) == 32 * x && Shift(x, 6) == 64 * x;
  }

  /** Digits do not influence each other: the low ones can be done apart from the high ones. */
  lemma {:induction false} BitwiseSplit(op: Operation, a: nat, x: nat, b: nat, y: nat, k: nat, n: nat)
    requires a < Pow2(k) && b < Pow2(k)
    ensures Bitwise(op, a + Shift(x, k), b + Shift(y, k), k + n) ==
            Bitwise(op, a, b, k) + Shift(Bitwise(op, x, y, n), k)
    decreases k
  {
    hide Pow2, Bitwise, Combine;
    if k == 0 {
      Pow2Zero();
      NoDigits(op);
    } else {
      var sx, sy := Shift(x, k - 1), Shift(y, k - 1);
      Pow2Next(k - 1);
      BitwiseSplit(op, a / 2, x, b / 2, y, k - 1, n);
      BitwiseStep(op, a + 2 * sx, b + 2 * sy, k + n);
      BitwiseStep(op, a, b, k);
      HalfOf(a, sx);
      HalfOf(b, sy);
    }
  }

  lemma HalfOf(a: nat, h: nat)
    ensures (a + 2 * h) % 2 == a % 2 && (a + 2 * h) / 2 == a / 2 + h
  {
  }

  lemma NoDigits(op: Operation)
    ensures Bitwise(op, 0, 0, 0) == 0
  {
  }

  lemma {:induction false} AndZero(x: nat, n: nat)
    ensures Bitwise(And, x, 0, n) == 0
    decreases n
  {
    if n > 0 { AndZero(x / 2, n - 1); }
  }

  lemma {:induction false} AndOnes(x: nat, n: nat)
    requires x < Pow2(n)
    ensures Bitwise(And, x, Pow2(n) - 1, n) == x
    decreases n
  {
    hide Pow2, Bitwise;
    Pow2Zero();
    if n == 0 {
      NoDigits(And);
    } else {
      var p := Pow2(n - 1);
      Pow2Next(n - 1);
      AndOnes(x / 2, n - 1);
      BitwiseStep(And, x, 2 * p - 1, n);
      assert (2 * p - 1) / 2 == p - 1 && (2 * p - 1) % 2 == 1;
    }
  }

  lemma {:induction false} ShiftIs(x: nat, k: nat)
    ensures Shift(x, k) == Pow2(k) * x
  {
    if k > 0 { ShiftIs(x, k - 1); }
  }

  /** The operations as arithmetic: OR and AND share out the digits, XOR is addition without carries, and
      NOT is the distance to all ones. */
  lemma {:induction false} BitwiseSums(x: nat, y: nat, n: nat)
    requires x < Pow2(n) && y < Pow2(n)
    ensures Bitwise(Or, x, y, n) + Bitwise(And, x, y, n) == x + y
    ensures Bitwise(Xor, x, y, n) + 2 * Bitwise(And, x, y, n) == x + y
    ensures Bitwise(Not, x, y, n) == Pow2(n) - 1 - x
    decreases n
  {
    hide Pow2, Bitwise;
    Pow2Zero();
    if n == 0 {
      NoDigits(Or);
      NoDigits(And);
      NoDigits(Xor);
      NoDigits(Not);
    } else {
      Pow2Next(n - 1);
      BitwiseSums(x / 2, y / 2, n - 1);
      BitwiseStep(Or, x, y, n);
      BitwiseStep(And, x, y, n);
      BitwiseStep(Xor, x, y, n);
      BitwiseStep(Not, x, y, n);
    }
  }

  lemma {:induction false} DeMorgan(x: nat, y: nat, n: nat)
    ensures Bitwise(Or, x, y, n) ==
            Bitwise(Not, Bitwise(And, Bitwise(Not, x, 0, n), Bitwise(Not, y, 0, n), n), 0, n)
    decreases n
  {
    hide Pow2, Bitwise;
    if n == 0 {
      NothingBitwise(x, y);
    } else {
      var p, q := Bitwise(Not, x, 0, n), Bitwise(Not, y, 0, n);
      DeMorgan(x / 2, y / 2, n - 1);
      BitwiseStep(Or, x, y, n);
      BitwiseStep(Not, x, 0, n);
      BitwiseStep(Not, y, 0, n);
      BitwiseStep(And, p, q, n);
      BitwiseStep(Not, Bitwise(And, p, q, n), 0, n);
    }
  }

  lemma {:induction false} XorIs(x: nat, y: nat, n: nat)
    ensures Bitwise(Xor, x, y, n) == Bitwise(And, Bitwise(Or, x, y, n), Bitwise(Not, Bitwise(And, x, y, n), 0, n), n)
    ensures Bitwise(Xor, x, x, n) == 0
    decreases n
  {
    hide Pow2, Bitwise;
    if n == 0 {
      NothingBitwise(x, y);
      NothingBitwise(x, x);
    } else {
      var p, q := Bitwise(Or, x, y, n), Bitwise(And, x, y, n);
      XorIs(x / 2, y / 2, n - 1);
      BitwiseStep(Xor, x, y, n);
      BitwiseStep(Xor, x, x, n);
      BitwiseStep(Or, x, y, n);
      BitwiseStep(And, x, y, n);
      BitwiseStep(Not, q, 0, n);
      BitwiseStep(And, p, Bitwise(Not, q, 0, n), n);
    }
  }

  lemma NothingBitwise(x: nat, y: nat)
    ensures forall op :: Bitwise(op, x, y, 0) == 0
    ensures forall z: nat, op :: Bitwise(op, z, 0, 0) == 0
  {
  }
}
