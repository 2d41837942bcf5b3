/** CRC16 by table, a byte at a time, against long division bit by bit. A 16-bit register is the
    sequence of its bits, most significant first: a polynomial over the two-element field. */
module Crc16 {
  import opened Sequences
  import opened Bits

  /** The generator x^16 + x^12 + x^5 + 1 without its leading term: bits 12, 5 and 0. */
  predicate Gen(k: nat) {
    k == 3 || k == 10 || k == 15
  }

  function Generator(): (g: seq<bool>)
    ensures |g| == 16 && forall k | 0 <= k < 16 :: g[k] == Gen(k)
  {
    seq(16, k requires 0 <= k < 16 => Gen(k))
  }

  function Xor(a: seq<bool>, b: seq<bool>): (c: seq<bool>)
    requires |a| == |b|
    ensures |c| == |a| && forall k | 0 <= k < |c| :: c[k] == (a[k] != b[k])
  {
    seq(|a|, k requires 0 <= k < |a| => a[k] != b[k])
  }

  function Zeros(n: nat): (z: seq<bool>)
    ensures |z| == n && forall k | 0 <= k < n :: !z[k]
  {
    seq(n, _ => false)
  }

  /** Shift the register, bringing in b; subtract the generator when a one is pushed out. */
  function Divided(r: seq<bool>, b: bool): (s: seq<bool>)
    requires |r| == 16
    ensures |s| == 16 && forall k | 0 <= k < 16 :: s[k] == ((if k < 15 then r[k + 1] else b) != (r[0] && Gen(k)))
  {
    seq(16, k requires 0 <= k < 16 => (if k < 15 then r[k + 1] else b) != (r[0] && Gen(k)))
  }

  /** Multiply by x modulo the generator. */
  function Shifted(r: seq<bool>): (s: seq<bool>)
    requires |r| == 16
    ensures |s| == 16
  {
    Divided(r, false)
  }

  function ShiftedBy(r: seq<bool>, n: nat): (s: seq<bool>)
    requires |r| == 16
    ensures |s| == 16
    decreases n
  {
    if n == 0 then r else ShiftedBy(Shifted(r), n - 1)
  }

  // ---------------------------------------------------------------- reference

  /** Long division: the remainder of the bits divided by the generator. */
  function Remainder(r: seq<bool>, bits: seq<bool>): (s: seq<bool>)
    requires |r| == 16
    ensures |s| == 16
    decreases |bits|
  {
    if bits == [] then r else Remainder(Divided(r, bits[0]), bits[1..])
  }

  function Message(s: seq<Byte>): seq<bool> {
    if s == [] then [] else Spell(s[0], 8) + Message(s[1..])
  }

  /** The CRC by definition: the remainder of the message times x^16. */
  function CrcByDivision(s: seq<Byte>): (crc: seq<bool>)
    ensures |crc| == 16
  {
    Remainder(Zeros(16), Message(s) + Zeros(16))
  }

  // ------------------------------------------------------------------ algebra

  lemma ShiftedXor(a: seq<bool>, b: seq<bool>)
    requires |a| == |b| == 16
    ensures Shifted(Xor(a, b)) == Xor(Shifted(a), Shifted(b))
  {
  }

  lemma {:induction false} ShiftedByXor(a: seq<bool>, b: seq<bool>, n: nat)
    requires |a| == |b| == 16
    ensures ShiftedBy(Xor(a, b), n) == Xor(ShiftedBy(a, n), ShiftedBy(b, n))
    decreases n
  {
    hide Shifted, Xor;
    if n > 0 {
      ShiftedXor(a, b);
      ShiftedByXor(Shifted(a), Shifted(b), n - 1);
    }
  }

  lemma {:induction false} ShiftedByAdd(r: seq<bool>, m: nat, n: nat)
    requires |r| == 16
    ensures ShiftedBy(r, m + n) == ShiftedBy(ShiftedBy(r, m), n)
    decreases m
  {
    hide Shifted;
    if m > 0 { ShiftedByAdd(Shifted(r), m - 1, n); }
  }

  lemma ShiftedLast(r: seq<bool>, n: nat)
    requires |r| == 16
    ensures ShiftedBy(r, n + 1) == Shifted(ShiftedBy(r, n))
  {
    ShiftedByAdd(r, n, 1);
  }

  /** As long as zeros are pushed out, shifting only moves. */
  lemma {:induction false} Moved(w: seq<bool>, n: nat)
    requires |w| == 16 && n <= 16 && forall k | 0 <= k < n :: !w[k]
    ensures ShiftedBy(w, n) == w[n..] + Zeros(n)
    decreases n
  {
    if n > 0 {
      var v := Shifted(w);
      assert v == w[1..] + [false];
      Moved(v, n - 1);
      assert v[n - 1..] + Zeros(n - 1) == w[n..] + Zeros(n);
    }
  }

  function One(b: bool): (w: seq<bool>)
    ensures |w| == 16
  {
    Zeros(15) + [b]
  }

  /** x^16 is the generator without its leading term. */
  lemma OneBy16(b: bool)
    ensures ShiftedBy(One(b), 16) == if b then Generator() else Zeros(16)
  {
    Moved(One(b), 15);
    ShiftedLast(One(b), 15);
    assert One(b)[15..] + Zeros(15) == [b] + Zeros(15);
  }

  // ------------------------------------------------- bits without trailing zeros

  /** The usual register step: compare the bit pushed out with the next message bit. */
  function Fed(r: seq<bool>, b: bool): (s: seq<bool>)
    requires |r| == 16
    ensures |s| == 16
  {
    Shifted(r[0 := r[0] != b])
  }

  function FedAll(r: seq<bool>, bits: seq<bool>): (s: seq<bool>)
    requires |r| == 16
    ensures |s| == 16
    decreases |bits|
  {
    if bits == [] then r else FedAll(Fed(r, bits[0]), bits[1..])
  }

  lemma FedIs(r: seq<bool>, b: bool)
    requires |r| == 16
    ensures Fed(r, b) == Xor(Shifted(r), if b then Generator() else Zeros(16))
  {
  }

  lemma DividedIs(r: seq<bool>, b: bool)
    requires |r| == 16
    ensures Divided(r, b) == Xor(Shifted(r), One(b))
  {
  }

  /** Sixteen shifts later, a division step is a register step. */
  lemma LaterStep(r: seq<bool>, b: bool)
    requires |r| == 16
    ensures ShiftedBy(Divided(r, b), 16) == Fed(ShiftedBy(r, 16), b)
  {
    hide Shifted, Xor, ShiftedBy, Divided, Fed, Generator, One;
    DividedIs(r, b);
    ShiftedByXor(Shifted(r), One(b), 16);
    OneBy16(b);
    FedIs(ShiftedBy(r, 16), b);
    ShiftedLast(r, 16);
    FirstShift(r, 16);
  }

  lemma FirstShift(r: seq<bool>, n: nat)
    requires |r| == 16
    ensures ShiftedBy(r, n + 1) == ShiftedBy(Shifted(r), n)
  {
  }

  lemma {:induction false} Later(r: seq<bool>, bits: seq<bool>)
    requires |r| == 16
    ensures ShiftedBy(Remainder(r, bits), 16) == FedAll(ShiftedBy(r, 16), bits)
    decreases |bits|
  {
    hide Divided, Fed, ShiftedBy;
    if bits != [] {
      LaterStep(r, bits[0]);
      Later(Divided(r, bits[0]), bits[1..]);
    }
  }

  lemma {:induction false} RemainderAppend(r: seq<bool>, a: seq<bool>, b: seq<bool>)
    requires |r| == 16
    ensures Remainder(r, a + b) == Remainder(Remainder(r, a), b)
    decreases |a|
  {
    hide Divided;
    if a == [] {
      assert a + b == b;
    } else {
      assert (a + b)[1..] == a[1..] + b;
      RemainderAppend(Divided(r, a[0]), a[1..], b);
    }
  }

  lemma {:induction false} RemainderZeros(r: seq<bool>, n: nat)
    requires |r| == 16
    ensures Remainder(r, Zeros(n)) == ShiftedBy(r, n)
    decreases n
  {
    hide Divided;
    if n > 0 {
      assert Zeros(n)[1..] == Zeros(n - 1);
      RemainderZeros(Shifted(r), n - 1);
    }
  }

  /** Feeding the message to a zero register gives the remainder of the message times x^16. */
  lemma FedIsDivision(s: seq<Byte>)
    ensures CrcByDivision(s) == FedAll(Zeros(16), Message(s))
  {
    hide Remainder, FedAll, ShiftedBy, Message;
    RemainderAppend(Zeros(16), Message(s), Zeros(16));
    RemainderZeros(Remainder(Zeros(16), Message(s)), 16);
    Later(Zeros(16), Message(s));
    Moved(Zeros(16), 16);
    assert Zeros(16)[16..] + Zeros(16) == Zeros(16);
  }

  // ------------------------------------------------------------------ byte steps

  lemma FedMany(r: seq<bool>, w: seq<bool>)
    requires |r| == |w| == 16
    ensures Shifted(Xor(r, w)) == Xor(Fed(r, w[0]), w[1..] + [false])
  {
  }

  /** Feeding n bits is adding them at the top of the register and shifting n times. */
  lemma {:induction false} FedByShifts(r: seq<bool>, bits: seq<bool>)
    requires |r| == 16 && |bits| <= 16
    ensures FedAll(r, bits) == ShiftedBy(Xor(r, bits + Zeros(16 - |bits|)), |bits|)
    decreases |bits|
  {
    hide Shifted, Fed;
    var w := bits + Zeros(16 - |bits|);
    if bits == [] {
      assert Xor(r, w) == r;
    } else {
      FedMany(r, w);
      assert w[1..] + [false] == bits[1..] + Zeros(16 - (|bits| - 1));
      FedByShifts(Fed(r, bits[0]), bits[1..]);
    }
  }

  // -------------------------------------------------------------------- table

  function Row(r: nat): (row: seq<nat>)
    requires r < 32
    ensures |row| == 8
  {
    match r
    case 0 => [0x0000, 0x1021, 0x2042, 0x3063, 0x4084, 0x50a5, 0x60c6, 0x70e7]
    case 1 => [0x8108, 0x9129, 0xa14a, 0xb16b, 0xc18c, 0xd1ad, 0xe1ce, 0xf1ef]
    case 2 => [0x1231, 0x0210, 0x3273, 0x2252, 0x52b5, 0x4294, 0x72f7, 0x62d6]
    case 3 => [0x9339, 0x8318, 0xb37b, 0xa35a, 0xd3bd, 0xc39c, 0xf3ff, 0xe3de]
    case 4 => [0x2462, 0x3443, 0x0420, 0x1401, 0x64e6, 0x74c7, 0x44a4, 0x5485]
    case 5 => [0xa56a, 0xb54b, 0x8528, 0x9509, 0xe5ee, 0xf5cf, 0xc5ac, 0xd58d]
    case 6 => [0x3653, 0x2672, 0x1611, 0x0630, 0x76d7, 0x66f6, 0x5695, 0x46b4]
    case 7 => [0xb75b, 0xa77a, 0x9719, 0x8738, 0xf7df, 0xe7fe, 0xd79d, 0xc7bc]
    case 8 => [0x48c4, 0x58e5, 0x6886, 0x78a7, 0x0840, 0x1861, 0x2802, 0x3823]
    case 9 => [0xc9cc, 0xd9ed, 0xe98e, 0xf9af, 0x8948, 0x9969, 0xa90a, 0xb92b]
    case 10 => [0x5af5, 0x4ad4, 0x7ab7, 0x6a96, 0x1a71, 0x0a50, 0x3a33, 0x2a12]
    case 11 => [0xdbfd, 0xcbdc, 0xfbbf, 0xeb9e, 0x9b79, 0x8b58, 0xbb3b, 0xab1a]
    case 12 => [0x6ca6, 0x7c87, 0x4ce4, 0x5cc5, 0x2c22, 0x3c03, 0x0c60, 0x1c41]
    case 13 => [0xedae, 0xfd8f, 0xcdec, 0xddcd, 0xad2a, 0xbd0b, 0x8d68, 0x9d49]
    case 14 => [0x7e97, 0x6eb6, 0x5ed5, 0x4ef4, 0x3e13, 0x2e32, 0x1e51, 0x0e70]
    case 15 => [0xff9f, 0xefbe, 0xdfdd, 0xcffc, 0xbf1b, 0xaf3a, 0x9f59, 0x8f78]
    case 16 => [0x9188, 0x81a9, 0xb1ca, 0xa1eb, 0xd10c, 0xc12d, 0xf14e, 0xe16f]
    case 17 => [0x1080, 0x00a1, 0x30c2, 0x20e3, 0x5004, 0x4025, 0x7046, 0x6067]
    case 18 => [0x83b9, 0x9398, 0xa3fb, 0xb3da, 0xc33d, 0xd31c, 0xe37f, 0xf35e]
    case 19 => [0x02b1, 0x1290, 0x22f3, 0x32d2, 0x4235, 0x5214, 0x6277, 0x7256]
    case 20 => [0xb5ea, 0xa5cb, 0x95a8, 0x8589, 0xf56e, 0xe54f, 0xd52c, 0xc50d]
    case 21 => [0x34e2, 0x24c3, 0x14a0, 0x0481, 0x7466, 0x6447, 0x5424, 0x4405]
    case 22 => [0xa7db, 0xb7fa, 0x8799, 0x97b8, 0xe75f, 0xf77e, 0xc71d, 0xd73c]
    case 23 => [0x26d3, 0x36f2, 0x0691, 0x16b0, 0x6657, 0x7676, 0x4615, 0x5634]
    case 24 => [0xd94c, 0xc96d, 0xf90e, 0xe92f, 0x99c8, 0x89e9, 0xb98a, 0xa9ab]
    case 25 => [0x5844, 0x4865, 0x7806, 0x6827, 0x18c0, 0x08e1, 0x3882, 0x28a3]
    case 26 => [0xcb7d, 0xdb5c, 0xeb3f, 0xfb1e, 0x8bf9, 0x9bd8, 0xabbb, 0xbb9a]
    case 27 => [0x4a75, 0x5a54, 0x6a37, 0x7a16, 0x0af1, 0x1ad0, 0x2ab3, 0x3a92]
    case 28 => [0xfd2e, 0xed0f, 0xdd6c, 0xcd4d, 0xbdaa, 0xad8b, 0x9de8, 0x8dc9]
    case 29 => [0x7c26, 0x6c07, 0x5c64, 0x4c45, 0x3ca2, 0x2c83, 0x1ce0, 0x0cc1]
    case 30 => [0xef1f, 0xff3e, 0xcf5d, 0xdf7c, 0xaf9b, 0xbfba, 0x8fd9, 0x9ff8]
    case _ => [0x6e17, 0x7e36, 0x4e55, 0x5e74, 0x2e93, 0x3eb2, 0x0ed1, 0x1ef0]
  }

  /** crc16tab, in rows of eight. */
  function Table(i: nat): nat
    requires i < 256
  {
    Row(i / 8)[i % 8]
  }

  function Toggle(x: nat, p: nat): nat
    requires p > 0
  {
    if x % (2 * p) >= p then x - p else x + p
  }

  /** Bits 12, 5 and 0 change. */
  function AddGenerator(x: nat): int {
    x + (if x % 8192 >= 4096 then -4096 else 4096) + (if x % 64 >= 32 then -32 else 32) + (if x % 2 >= 1 then -1 else 1)
  }

  lemma AddGeneratorIs(x: nat)
    ensures AddGenerator(x) == Toggle(Toggle(Toggle(x, 4096), 32), 1)
  {
    var y := Toggle(x, 4096);
    assert y % 64 == x % 64;
    var z := Toggle(y, 32);
    assert z % 2 == y % 2 == x % 2;
  }

  function TimesX(x: nat): int {
    if x < 32768 then 2 * x else AddGenerator(2 * x - 65536)
  }

  /** Entries 2 * i and 2 * i + 1 come from entry i: shift, and add the generator for a last one. */
  predicate Fits(parent: nat, even: nat, odd: nat) {
    even == TimesX(parent) && odd == AddGenerator(even) && even < 65536 && odd < 65536
  }

  /** A row comes from half of another. */
  predicate Children(parents: seq<nat>, off: nat, row: seq<nat>, c: nat)
    requires |parents| == |row| == 8 && c <= 4 && off <= 4
    decreases 4 - c
  {
    c == 4 || (Fits(parents[off + c], row[2 * c], row[2 * c + 1]) && Children(parents, off, row, c + 1))
  }

  lemma Row0() ensures Children(Row(0), 0, Row(0), 0) {}

  lemma Row1() ensures Children(Row(0), 4, Row(1), 0) {}

  lemma Row2() ensures Children(Row(1), 0, Row(2), 0) {}

  lemma Row3() ensures Children(Row(1), 4, Row(3), 0) {}

  lemma Row4() ensures Children(Row(2), 0, Row(4), 0) {}

  lemma Row5() ensures Children(Row(2), 4, Row(5), 0) {}

  lemma Row6() ensures Children(Row(3), 0, Row(6), 0) {}

  lemma Row7() ensures Children(Row(3), 4, Row(7), 0) {}

  lemma Row8() ensures Children(Row(4), 0, Row(8), 0) {}

  lemma Row9() ensures Children(Row(4), 4, Row(9), 0) {}

  lemma Row10() ensures Children(Row(5), 0, Row(10), 0) {}

  lemma Row11() ensures Children(Row(5), 4, Row(11), 0) {}

  lemma Row12() ensures Children(Row(6), 0, Row(12), 0) {}

  lemma Row13() ensures Children(Row(6), 4, Row(13), 0) {}

  lemma Row14() ensures Children(Row(7), 0, Row(14), 0) {}

  lemma Row15() ensures Children(Row(7), 4, Row(15), 0) {}

  lemma Row16() ensures Children(Row(8), 0, Row(16), 0) {}

  lemma Row17() ensures Children(Row(8), 4, Row(17), 0) {}

  lemma Row18() ensures Children(Row(9), 0, Row(18), 0) {}

  lemma Row19() ensures Children(Row(9), 4, Row(19), 0) {}

  lemma Row20() ensures Children(Row(10), 0, Row(20), 0) {}

  lemma Row21() ensures Children(Row(10), 4, Row(21), 0) {}

  lemma Row22() ensures Children(Row(11), 0, Row(22), 0) {}

  lemma Row23() ensures Children(Row(11), 4, Row(23), 0) {}

  lemma Row24() ensures Children(Row(12), 0, Row(24), 0) {}

  lemma Row25() ensures Children(Row(12), 4, Row(25), 0) {}

  lemma Row26() ensures Children(Row(13), 0, Row(26), 0) {}

  lemma Row27() ensures Children(Row(13), 4, Row(27), 0) {}

  lemma Row28() ensures Children(Row(14), 0, Row(28), 0) {}

  lemma Row29() ensures Children(Row(14), 4, Row(29), 0) {}

  lemma Row30() ensures Children(Row(15), 0, Row(30), 0) {}

  lemma Row31() ensures Children(Row(15), 4, Row(31), 0) {}

  lemma EveryRow(q: nat)
    requires q < 32
    ensures Children(Row(q / 2), 4 * (q % 2), Row(q), 0)
  {
    hide Row, Children;
    match q
    case 0 => Row0();
    case 1 => Row1();
    case 2 => Row2();
    case 3 => Row3();
    case 4 => Row4();
    case 5 => Row5();
    case 6 => Row6();
    case 7 => Row7();
    case 8 => Row8();
    case 9 => Row9();
    case 10 => Row10();
    case 11 => Row11();
    case 12 => Row12();
    case 13 => Row13();
    case 14 => Row14();
    case 15 => Row15();
    case 16 => Row16();
    case 17 => Row17();
    case 18 => Row18();
    case 19 => Row19();
    case 20 => Row20();
    case 21 => Row21();
    case 22 => Row22();
    case 23 => Row23();
    case 24 => Row24();
    case 25 => Row25();
    case 26 => Row26();
    case 27 => Row27();
    case 28 => Row28();
    case 29 => Row29();
    case 30 => Row30();
    case _ => Row31();
  }

  lemma {:induction false} ChildAt(parents: seq<nat>, off: nat, row: seq<nat>, c: nat, k: nat)
    requires |parents| == |row| == 8 && c <= k < 4 && off <= 4 && Children(parents, off, row, c)
    ensures Fits(parents[off + k], row[2 * k], row[2 * k + 1])
    decreases k - c
  {
    hide Fits;
    if c < k { ChildAt(parents, off, row, c + 1, k); }
  }

  lemma EntryFits(i: nat)
    requires i < 128
    ensures Fits(Table(i), Table(2 * i), Table(2 * i + 1))
  {
    hide Row, Fits, Children;
    var q, c := i / 4, i % 4;
    EveryRow(q);
    ChildAt(Row(q / 2), 4 * (q % 2), Row(q), 0, c);
    assert i / 8 == q / 2 && i % 8 == 4 * (q % 2) + c;
    assert 2 * i / 8 == q && 2 * i % 8 == 2 * c && (2 * i + 1) / 8 == q && (2 * i + 1) % 8 == 2 * c + 1;
  }

  // ------------------------------------------- table entries as polynomials

  lemma {:induction false} TogglePut(x: nat, k: nat)
    ensures Toggle(x, Pow2(k)) == PutBit(x, k, !TestBit(x, k))
    decreases k
  {
    if k == 0 {
      Pow2Zero();
    } else {
      hide Pow2;
      Pow2Next(k - 1);
      ModHalf(x, 2 * Pow2(k - 1));
      TogglePut(x / 2, k - 1);
    }
  }

  lemma ToggleBits(x: nat, k: nat)
    requires x < 65536 && k < 16
    ensures Toggle(x, Pow2(k)) < 65536 && forall m: nat :: TestBit(Toggle(x, Pow2(k)), m) == (TestBit(x, m) != (m == k))
  {
    hide Toggle, Pow2, PutBit, TestBit;
    TogglePut(x, k);
    Pow2Of16();
    PutBelow(x, k, !TestBit(x, k), 16);
    forall m: nat ensures TestBit(Toggle(x, Pow2(k)), m) == (TestBit(x, m) != (m == k)) {
      PutTest(x, k, !TestBit(x, k), m);
    }
  }

  lemma Pow2Of16()
    ensures Pow2(16) == 65536
  {
    hide Pow2;
    Pow2Of8();
    Pow2Add(8, 8);
  }

  lemma GeneratorPowers()
    ensures Pow2(12) == 4096 && Pow2(5) == 32 && Pow2(0) == 1
  {
  }

  lemma AddGeneratorBits(x: nat)
    requires x < 65536
    ensures AddGenerator(x) < 65536 && Spell(AddGenerator(x), 16) == Xor(Spell(x, 16), Generator())
  {
    hide Toggle, Pow2, TestBit, Spell, AddGenerator;
    AddGeneratorIs(x);
    GeneratorPowers();
    ToggleBits(x, 12);
    ToggleBits(Toggle(x, 4096), 5);
    ToggleBits(Toggle(Toggle(x, 4096), 32), 0);
    forall k | 0 <= k < 16 ensures Spell(AddGenerator(x), 16)[k] == (Spell(x, 16)[k] != Gen(k)) {
      SpellDigit(x, 16, k);
      SpellDigit(AddGenerator(x), 16, k);
    }
  }

  lemma {:induction false} SpellLow(v: nat, n: nat)
    ensures Spell(v % Pow2(n), n) == Spell(v, n)
  {
    if n > 0 {
      ModHalf(v, Pow2(n - 1));
      SpellLow(v / 2, n - 1);
    }
  }

  lemma SpellDouble(x: nat)
    ensures Spell(2 * x, 16) == Spell(x, 16)[1..] + [false]
  {
    hide TestBit, Spell;
    forall k | 0 <= k < 16 ensures Spell(2 * x, 16)[k] == (Spell(x, 16)[1..] + [false])[k] {
      SpellDigit(2 * x, 16, k);
      if k < 15 { SpellDigit(x, 16, k + 1); }
      DoubleBit(x, 15 - k);
    }
  }

  lemma DoubleBit(x: nat, k: nat)
    ensures TestBit(2 * x, k) == (k > 0 && TestBit(x, k - 1))
  {
  }

  lemma TopBit(x: nat)
    requires x < 65536
    ensures Spell(x, 16)[0] == (x >= 32768)
  {
    hide Spell, Pow2, TestBit;
    SpellDigit(x, 16, 0);
    TestByDivision(x, 15);
    Pow2Of16();
    Pow2Next(15);
  }

  lemma TimesXBits(x: nat)
    requires x < 65536
    ensures TimesX(x) < 65536 && Spell(TimesX(x), 16) == Shifted(Spell(x, 16))
  {
    hide Spell, Pow2, AddGenerator;
    TopBit(x);
    SpellDouble(x);
    Pow2Of16();
    if x >= 32768 {
      SpellLow(2 * x, 16);
      AddGeneratorBits(2 * x - 65536);
    }
  }

  /** Entry i of the table is i times x^16, modulo the generator. */
  lemma {:induction false} TableIs(i: nat)
    requires i < 256
    ensures Table(i) < 65536 && Spell(Table(i), 16) == ShiftedBy(Spell(i, 16), 16)
  {
    hide Table, Spell, ShiftedBy, Shifted, TimesX, AddGenerator, Xor, Generator, One;
    if i == 0 {
      ZeroEntry();
    } else {
      var j := i / 2;
      TableIs(j);
      EntryFits(j);
      TimesXBits(Table(j));
      AddGeneratorBits(Table(2 * j));
      ShiftedLast(Spell(j, 16), 16);
      FirstShift(Spell(j, 16), 16);
      SmallDouble(j);
      if i == 2 * j + 1 {
        SmallOdd(j);
        ShiftedByXor(Spell(2 * j, 16), One(true), 16);
        OneBy16(true);
      }
    }
  }

  lemma ZeroEntry()
    ensures Table(0) == 0 && Spell(0, 16) == Zeros(16) && ShiftedBy(Zeros(16), 16) == Zeros(16)
  {
    hide TestBit, ShiftedBy, Spell;
    forall k | 0 <= k < 16 ensures !Spell(0, 16)[k] {
      SpellDigit(0, 16, k);
      ZeroBits(15 - k);
    }
    Moved(Zeros(16), 16);
    assert Zeros(16)[16..] + Zeros(16) == Zeros(16);
  }

  lemma SmallDouble(j: nat)
    requires j < 128
    ensures Spell(2 * j, 16) == Shifted(Spell(j, 16))
  {
    hide Spell;
    TopBit(j);
    SpellDouble(j);
  }

  lemma SmallOdd(j: nat)
    ensures Spell(2 * j + 1, 16) == Xor(Spell(2 * j, 16), One(true))
  {
    hide TestBit;
    assert (2 * j + 1) / 2 == j && 2 * j / 2 == j;
  }

  // ---------------------------------------------------------------- the loop

  /** (crc << 8) ^ crc16tab[((crc >> 8) ^ byte) & 0xFF] */
  function ByteStep(r: seq<bool>, b: Byte): (s: seq<bool>)
    requires |r| == 16
    ensures |s| == 16
  {
    Pow2Of8();
    Xor(r[8..] + Zeros(8), Spell(Table(Value(Xor(r[..8], Spell(b, 8)))), 16))
  }

  /** Eight bits moved from the low to the high half of a register. */
  lemma HighHalf(h: seq<bool>)
    requires |h| == 8
    ensures ShiftedBy(Zeros(8) + h, 8) == h + Zeros(8)
    ensures ShiftedBy(Zeros(8) + h, 16) == ShiftedBy(h + Zeros(8), 8)
  {
    hide ShiftedBy;
    var w := Zeros(8) + h;
    Moved(w, 8);
    assert w[8..] == h;
    ShiftedByAdd(w, 8, 8);
  }

  lemma SpellPadded(h: seq<bool>)
    requires |h| == 8
    ensures Spell(Value(h), 16) == Zeros(8) + h
  {
    hide TestBit, Spell, Value, Pow2;
    Pow2Of8();
    SpellValue(h);
    forall k | 0 <= k < 16 ensures Spell(Value(h), 16)[k] == (Zeros(8) + h)[k] {
      SpellDigit(Value(h), 16, k);
      if k >= 8 {
        SpellDigit(Value(h), 8, k - 8);
      } else {
        TestByDivision(Value(h), 15 - k);
        Pow2Grows(8, 15 - k);
        assert Value(h) / Pow2(15 - k) == 0;
      }
    }
  }

  /** A table step feeds the eight bits of a byte. */
  lemma ByteStepFeeds(r: seq<bool>, b: Byte)
    requires |r| == 16
    ensures ByteStep(r, b) == FedAll(r, Spell(b, 8))
  {
    hide ShiftedBy, Table, Spell, Value, FedAll;
    Pow2Of8();
    var h := Xor(r[..8], Spell(b, 8));
    TableIs(Value(h));
    SpellPadded(h);
    HighHalf(h);
    HighHalf(r[8..]);
    FedByShifts(r, Spell(b, 8));
    assert Xor(r, Spell(b, 8) + Zeros(8)) == Xor(h + Zeros(8), Zeros(8) + r[8..]);
    ShiftedByXor(h + Zeros(8), Zeros(8) + r[8..], 8);
    XorSwap(ShiftedBy(h + Zeros(8), 8), r[8..] + Zeros(8));
  }

  lemma XorSwap(a: seq<bool>, b: seq<bool>)
    requires |a| == |b|
    ensures Xor(a, b) == Xor(b, a)
  {
  }

  lemma {:induction false} FedAppend(r: seq<bool>, a: seq<bool>, b: seq<bool>)
    requires |r| == 16
    ensures FedAll(r, a + b) == FedAll(FedAll(r, a), b)
    decreases |a|
  {
    hide Fed;
    if a == [] {
      assert a + b == b;
    } else {
      assert (a + b)[1..] == a[1..] + b;
      FedAppend(Fed(r, a[0]), a[1..], b);
    }
  }

  /** crc16: for every byte string, the remainder of the message times x^16 divided by the generator. */
  method ComputeCrc16(buf: seq<Byte>) returns (crc: seq<bool>)
    ensures crc == CrcByDivision(buf)
  {
    hide ByteStep, FedAll, Zeros, CrcByDivision, Spell;
    crc := Zeros(16);
    var counter := 0;
    FedIsDivision(buf);
    assert buf[0..] == buf;
    while counter < |buf|
      invariant 0 <= counter <= |buf| && |crc| == 16
      invariant FedAll(crc, Message(buf[counter..])) == CrcByDivision(buf)
    {
      assert buf[counter..][1..] == buf[counter + 1..];
      ByteStepFeeds(crc, buf[counter]);
      FedAppend(crc, Spell(buf[counter], 8), Message(buf[counter + 1..]));
      crc := ByteStep(crc, buf[counter]);
      counter := counter + 1;
    }
    NothingFed(crc);
  }

  lemma NothingFed(r: seq<bool>)
    requires |r| == 16
    ensures FedAll(r, []) == r
  {
  }
}
