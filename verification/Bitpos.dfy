/** The first bit of a given value in a string: whole words are skipped first, the rest is scanned
    bit by bit. A word is eight bytes. */
module Bitpos {
  import opened Sequences
  import opened Bits
  import opened Popcount

  predicate NoneBefore(s: seq<Byte>, bit: bool, n: nat) {
    forall k: nat | k < n :: BitAt(s, k) != bit
  }

  /** The byte, and the word, whose bits all have the other value. */
  function SkipByte(bit: bool): Byte {
    if bit then 0 else 255
  }

  function SkipWord(bit: bool): nat {
    if bit then 0 else TWO64 - 1
  }

  lemma {:induction false} OnesOnly(x: nat, n: nat, k: nat)
    requires x == Pow2(n) - 1 && k < n
    ensures TestBit(x, k)
  {
    hide Pow2;
    Pow2Next(n - 1);
    if k > 0 { OnesOnly(x / 2, n - 1, k - 1); }
  }

  lemma SkipByteBits(b: Byte, bit: bool, k: nat)
    requires b == SkipByte(bit) && k < 8
    ensures TestBit(b, k) != bit
  {
    hide TestBit, Pow2;
    Pow2Of8();
    if bit { ZeroBits(k); } else { OnesOnly(255, 8, k); }
  }

  lemma NextByte(s: seq<Byte>, bit: bool, i: nat)
    requires i < |s| && s[i] == SkipByte(bit) && NoneBefore(s, bit, 8 * i)
    ensures NoneBefore(s, bit, 8 * (i + 1))
  {
    hide TestBit;
    forall k: nat | k < 8 * (i + 1) ensures BitAt(s, k) != bit {
      if k >= 8 * i { SkipByteBits(s[i], bit, 7 - k % 8); }
    }
  }

  // ------------------------------------------------------------------- words

  /** A word in memory, equal to the skip word exactly when all its bytes are skip bytes. */
  lemma {:induction false} ZeroWord(ds: seq<nat>)
    ensures Num(ds, 256) == 0 <==> AtMost(ds, 0)
  {
    if ds != [] { ZeroWord(ds[1..]); }
  }

  predicate All(ds: seq<nat>, d: nat) {
    forall i | 0 <= i < |ds| :: ds[i] == d
  }

  lemma {:induction false} FullWord(ds: seq<nat>)
    requires AtMost(ds, 255)
    ensures Num(ds, 256) < Power(256, |ds|)
    ensures Num(ds, 256) == Power(256, |ds|) - 1 <==> All(ds, 255)
  {
    if ds != [] { FullWord(ds[1..]); }
  }

  lemma SkippedWord(ds: seq<nat>, bit: bool)
    requires |ds| == 8 && AtMost(ds, 255)
    ensures Num(ds, 256) == SkipWord(bit) <==> All(ds, SkipByte(bit))
  {
    hide Num, Power;
    ZeroWord(ds);
    FullWord(ds);
    WordPower();
  }

  lemma WordPower()
    ensures Power(256, 8) == TWO64
  {
    assert Power(256, 4) == TWO32;
  }

  function Bytes(s: seq<Byte>, i: nat, n: nat): (ds: seq<nat>)
    requires i + n <= |s|
    ensures |ds| == n && AtMost(ds, 255) && forall k | 0 <= k < n :: ds[k] == s[i + k]
  {
    seq(n, k requires 0 <= k < n => s[i + k])
  }

  lemma {:induction false} NextBytes(s: seq<Byte>, bit: bool, i: nat, n: nat)
    requires i + n <= |s| && NoneBefore(s, bit, 8 * i) && All(Bytes(s, i, n), SkipByte(bit))
    ensures NoneBefore(s, bit, 8 * (i + n))
    decreases n
  {
    hide NoneBefore;
    if n > 0 {
      assert Bytes(s, i, n)[..n - 1] == Bytes(s, i, n - 1) && Bytes(s, i, n)[n - 1] == s[i + n - 1];
      NextBytes(s, bit, i, n - 1);
      NextByte(s, bit, i + n - 1);
    }
  }

  // ----------------------------------------------------------- the last word

  lemma ValueLast(bs: seq<bool>)
    requires bs != []
    ensures Value(bs) == 2 * Value(bs[..|bs| - 1]) + Digit(bs[|bs| - 1])
  {
  }

  lemma {:induction false} ValueAppend(a: seq<bool>, b: seq<bool>)
    ensures Value(a + b) == Value(a) * Pow2(|b|) + Value(b)
    decreases |b|
  {
    hide Value, Pow2;
    if b == [] {
      assert a + b == a;
      Pow2Zero();
      EmptyValue();
    } else {
      var c := b[..|b| - 1];
      assert (a + b)[..|a + b| - 1] == a + c;
      ValueLast(a + b);
      ValueLast(b);
      ValueAppend(a, c);
      Pow2Next(|b| - 1);
      Doubled(Value(a), Pow2(|b| - 1));
    }
  }

  lemma EmptyValue()
    ensures Value([]) == 0
  {
  }

  lemma Doubled(x: nat, p: nat)
    ensures 2 * (x * p) == x * (2 * p)
  {
  }

  lemma LoadByte(s: seq<Byte>, i: nat, j: nat)
    ensures Value(Field(s, 8 * i, 8 * (j + 1))) == 256 * Value(Field(s, 8 * i, 8 * j)) + ByteAt(s, i + j)
  {
    hide TestBit, Spell, Value, Pow2, BitAt;
    var b := ByteAt(s, i + j);
    var a := Field(s, 8 * i, 8 * j);
    Pow2Of8();
    forall k | 0 <= k < 8 ensures BitAt(s, 8 * i + 8 * j + k) == Spell(b, 8)[k] {
      SpellDigit(b, 8, k);
      BitInByte(s, i + j, k);
    }
    assert Field(s, 8 * i, 8 * (j + 1)) == a + Spell(b, 8);
    ValueAppend(a, Spell(b, 8));
    ValueSpell(b, 8);
  }

  lemma BitInByte(s: seq<Byte>, i: nat, k: nat)
    requires k < 8
    ensures BitAt(s, 8 * i + k) == TestBit(ByteAt(s, i), 7 - k)
  {
    hide TestBit;
    assert (8 * i + k) / 8 == i && (8 * i + k) % 8 == k;
    BitOfByte(s, 8 * i + k);
  }

  /** The bytes from i on as one big-endian word, zeros after the end. */
  method LoadWord(s: seq<Byte>, i: nat) returns (word: nat)
    ensures word == Value(Field(s, 8 * i, 64))
  {
    hide Value, Field, Pow2;
    word := 0;
    var j := 0;
    EmptyField(s, 8 * i);
    while j < 8
      invariant 0 <= j <= 8 && word == Value(Field(s, 8 * i, 8 * j))
    {
      LoadByte(s, i, j);
      Pow2Values();
      Pow2Grows(8 * j + 8, 64);
      word := word * 256 % TWO64;
      if i + j < |s| { word := word + s[i + j]; }
      j := j + 1;
    }
  }

  lemma EmptyField(s: seq<Byte>, offset: nat)
    ensures Value(Field(s, offset, 0)) == 0
  {
  }

  lemma {:induction false} ZeroValue(bs: seq<bool>)
    ensures Value(bs) == 0 <==> forall i | 0 <= i < |bs| :: !bs[i]
  {
    if bs != [] {
      var c := bs[..|bs| - 1];
      ZeroValue(c);
      assert forall i | 0 <= i < |c| :: c[i] == bs[i];
    }
  }

  lemma WordBit(bs: seq<bool>, t: nat)
    requires |bs| == 64 && t < 64
    ensures bs[t] <==> Value(bs) / Pow2(63 - t) % 2 == 1
  {
    hide Value, Spell, TestBit, Pow2;
    SpellValue(bs);
    SpellDigit(Value(bs), 64, t);
    TestByDivision(Value(bs), 63 - t);
  }

  /** Scan a word from its most significant bit; some bit has the value sought. */
  method ScanWord(ghost bs: seq<bool>, word: nat, bit: bool) returns (t: nat)
    requires |bs| == 64 && word == Value(bs) && exists k | 0 <= k < 64 :: bs[k] == bit
    ensures t < 64 && bs[t] == bit && forall k | 0 <= k < t :: bs[k] != bit
  {
    hide Value, Pow2;
    Pow2Values();
    var one := TWO63;
    t := 0;
    while one != 0
      invariant t <= 64 && one == (if t < 64 then Pow2(63 - t) else 0)
      invariant forall k | 0 <= k < t :: bs[k] != bit
      decreases 64 - t
    {
      WordBit(bs, t);
      if (word / one % 2 == 1) == bit { return; }
      HalfPower(t);
      one := one / 2;
      t := t + 1;
    }
    assert false;
  }

  lemma HalfPower(t: nat)
    requires t < 64
    ensures Pow2(63 - t) / 2 == if t < 63 then Pow2(62 - t) else 0
  {
    hide *;
    if t < 63 { Pow2Next(62 - t); } else { Pow2Zero(); }
  }

  // ---------------------------------------------------------------- the search

  /** A byte other than the skip byte has a bit of the value sought. */
  lemma ByteHas(b: Byte, bit: bool) returns (m: nat)
    ensures b != SkipByte(bit) ==> m < 8 && TestBit(b, m) == bit
  {
    hide TestBit;
    m := 0;
    if k: nat :| k < 8 && TestBit(b, k) == bit {
      m := k;
    } else {
      forall k: nat | k < 8 ensures TestBit(b, k) == TestBit(SkipByte(bit), k) { SkipByteBits(SkipByte(bit), bit, k); }
      SameByte(b, SkipByte(bit));
    }
  }

  /** So the word loaded there has one. */
  lemma WordHas(s: seq<Byte>, i: nat, j: nat, bit: bool)
    requires i + j < |s| && j < 8 && s[i + j] != SkipByte(bit)
    ensures exists k | 0 <= k < 64 :: Field(s, 8 * i, 64)[k] == bit
  {
    hide TestBit;
    var m := ByteHas(s[i + j], bit);
    BitInByte(s, i + j, 7 - m);
    assert Field(s, 8 * i, 64)[8 * j + 7 - m] == bit;
  }

  lemma PaddedHas(s: seq<Byte>, i: nat)
    requires i <= |s| < i + 8
    ensures exists k | 0 <= k < 64 :: !Field(s, 8 * i, 64)[k]
  {
    hide TestBit;
    assert !Field(s, 8 * i, 64)[8 * (|s| - i)];
  }

  /** Skipping stops at a word, cut off by the end of the string perhaps, that has the bit sought
      if it has any chance to. */
  lemma Stopped(s: seq<Byte>, i: nat, bit: bool)
    requires i <= |s| && (|s| < i + 8 || !All(Bytes(s, i, 8), SkipByte(bit)) || (i < |s| && s[i] != SkipByte(bit)))
    ensures (exists k | 0 <= k < 64 :: Field(s, 8 * i, 64)[k] == bit) || (bit && |s| < i + 8)
  {
    hide Field;
    if i < |s| && s[i] != SkipByte(bit) {
      WordHas(s, i, 0, bit);
    } else if |s| < i + 8 {
      if !bit { PaddedHas(s, i); }
    } else {
      var j :| 0 <= j < 8 && Bytes(s, i, 8)[j] != SkipByte(bit);
      WordHas(s, i, j, bit);
    }
  }

  lemma RestIsZero(s: seq<Byte>, i: nat)
    requires i <= |s| < i + 8 && NoneBefore(s, true, 8 * i) && forall k | 0 <= k < 64 :: !Field(s, 8 * i, 64)[k]
    ensures NoneBefore(s, true, 8 * |s|)
  {
    hide TestBit;
    forall k: nat | k < 8 * |s| ensures !BitAt(s, k) {
      if k >= 8 * i { assert Field(s, 8 * i, 64)[k - 8 * i] == BitAt(s, k); }
    }
  }

  /** Skip to the word where the search goes on bit by bit. */
  method Skip(s: seq<Byte>, bit: bool, address: nat) returns (i: nat)
    ensures i <= |s| && NoneBefore(s, bit, 8 * i)
    ensures |s| < i + 8 || !All(Bytes(s, i, 8), SkipByte(bit)) || (i < |s| && s[i] != SkipByte(bit))
  {
    hide NoneBefore, Num;
    i := 0;
    NothingBefore(s, bit);
    while (address + i) % 8 != 0 && i < |s|
      invariant i <= |s| && NoneBefore(s, bit, 8 * i)
      decreases |s| - i
    {
      if s[i] != SkipByte(bit) { return; }
      NextByte(s, bit, i);
      i := i + 1;
    }
    while |s| - i >= 8
      invariant i <= |s| && NoneBefore(s, bit, 8 * i)
    {
      SkippedWord(Bytes(s, i, 8), bit);
      if Num(Bytes(s, i, 8), 256) != SkipWord(bit) { return; }
      NextBytes(s, bit, i, 8);
      i := i + 8;
    }
  }

  lemma NothingBefore(s: seq<Byte>, bit: bool)
    ensures NoneBefore(s, bit, 0)
  {
  }

  lemma FoundIn(s: seq<Byte>, bit: bool, i: nat, t: nat)
    requires NoneBefore(s, bit, 8 * i) && t < 64 && Field(s, 8 * i, 64)[t] == bit
    requires forall k | 0 <= k < t :: Field(s, 8 * i, 64)[k] != bit
    ensures BitAt(s, 8 * i + t) == bit && NoneBefore(s, bit, 8 * i + t)
  {
    hide BitAt;
    forall k: nat | k < 8 * i + t ensures BitAt(s, k) != bit {
      if k >= 8 * i { assert Field(s, 8 * i, 64)[k - 8 * i] == BitAt(s, k); }
    }
  }

  lemma EndIsZero(s: seq<Byte>, k: nat)
    requires k >= 8 * |s|
    ensures !BitAt(s, k)
  {
  }

  /** redisBitpos: the least position of a bit with the value sought, in the string followed by
      zeros; -1 exactly when a one is sought and there is none. */
  method RedisBitpos(s: seq<Byte>, bit: bool, address: nat) returns (pos: int)
    ensures pos >= 0 ==> pos <= 8 * |s| && BitAt(s, pos) == bit && NoneBefore(s, bit, pos)
    ensures pos < 0 ==> pos == -1 && bit && NoneBefore(s, true, 8 * |s|)
  {
    hide BitAt, Value, All, Bytes;
    var i := Skip(s, bit, address);
    var word := LoadWord(s, i);
    ghost var bs := Field(s, 8 * i, 64);
    ZeroValue(bs);
    Stopped(s, i, bit);
    if bit && word == 0 {
      RestIsZero(s, i);
      return -1;
    }
    var t := ScanWord(bs, word, bit);
    FoundIn(s, bit, i, t);
    pos := 8 * i + t;
    EndIsZero(s, 8 * |s|);
    assert pos > 8 * |s| ==> BitAt(s, 8 * |s|) != bit;
    if pos >= 8 * |s| { EndIsZero(s, pos); }
  }
}
