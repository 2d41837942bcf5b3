/** Counting bits 28 bytes at a time: neighbouring digits of a 32-bit word are summed side by side,
    first bits, then pairs, then nibbles, and a multiplication adds up the bytes. */
module Popcount {
  import opened Sequences
  import opened Bits

  // ------------------------------------------------------------ digits in a base

  /** The number with these digits, least significant first. */
  function Num(ds: seq<nat>, b: nat): nat {
    if ds == [] then 0 else ds[0] + b * Num(ds[1..], b)
  }

  predicate AtMost(ds: seq<nat>, m: nat) {
    forall i | 0 <= i < |ds| :: ds[i] <= m
  }

  function Total(ds: seq<nat>): nat {
    if ds == [] then 0 else ds[0] + Total(ds[1..])
  }

  function Evens(ds: seq<nat>): (r: seq<nat>)
    requires |ds| % 2 == 0
    ensures 2 * |r| == |ds| && forall i | 0 <= i < |r| :: r[i] == ds[2 * i]
  {
    seq(|ds| / 2, i requires 0 <= i < |ds| / 2 => ds[2 * i])
  }

  function Odds(ds: seq<nat>): (r: seq<nat>)
    requires |ds| % 2 == 0
    ensures 2 * |r| == |ds| && forall i | 0 <= i < |r| :: r[i] == ds[2 * i + 1]
  {
    seq(|ds| / 2, i requires 0 <= i < |ds| / 2 => ds[2 * i + 1])
  }

  function Sums(u: seq<nat>, v: seq<nat>): (r: seq<nat>)
    requires |u| == |v|
    ensures |r| == |u| && forall i | 0 <= i < |r| :: r[i] == u[i] + v[i]
  {
    seq(|u|, i requires 0 <= i < |u| => u[i] + v[i])
  }

  /** Neighbouring digits added. */
  function Pairwise(ds: seq<nat>): seq<nat>
    requires |ds| % 2 == 0
  {
    Sums(Evens(ds), Odds(ds))
  }

  /** A mask that keeps every other digit of 2 * n: base 2 is 0x55555555, base 4 is 0x33333333,
      base 16 is 0x0F0F0F0F. */
  function Keep(x: nat, b: nat, n: nat): nat
    requires b > 0
    decreases n
  {
    if n == 0 then 0 else x % b + b * b * Keep(x / (b * b), b, n - 1)
  }

  lemma TwoDigits(d0: nat, d1: nat, rest: nat, b: nat)
    requires d0 < b && d1 < b
    ensures var x := d0 + b * (d1 + b * rest);
            x % b == d0 && x / b == d1 + b * rest && x / (b * b) == rest
  {
    var x := d0 + b * (d1 + b * rest);
    ModIs(x, b, d1 + b * rest, d0);
    assert b * (d1 + b * rest) == b * d1 + b * b * rest;
    assert b * d1 + b <= b * b by { Multiple(b, b - d1); assert b * (b - d1) == b * b - b * d1; }
    ModIs(x, b * b, rest, d0 + b * d1);
  }

  lemma NumTwo(ds: seq<nat>, b: nat)
    requires |ds| >= 2
    ensures Num(ds, b) == ds[0] + b * (ds[1] + b * Num(ds[2..], b))
  {
    assert ds[1..][1..] == ds[2..];
  }

  lemma TailEvens(ds: seq<nat>)
    requires |ds| % 2 == 0 && |ds| >= 2
    ensures Evens(ds)[1..] == Evens(ds[2..]) && Odds(ds)[1..] == Odds(ds[2..])
    ensures Evens(ds)[0] == ds[0] && Odds(ds)[0] == ds[1]
  {
  }

  /** Keeping the even digits. */
  lemma {:induction false} KeepEvens(ds: seq<nat>, b: nat, n: nat)
    requires |ds| == 2 * n && b > 0 && AtMost(ds, b - 1)
    ensures Keep(Num(ds, b), b, n) == Num(Evens(ds), b * b)
    decreases n
  {
    if n > 0 {
      NumTwo(ds, b);
      TwoDigits(ds[0], ds[1], Num(ds[2..], b), b);
      TailEvens(ds);
      KeepEvens(ds[2..], b, n - 1);
    }
  }

  /** Shifting by one digit first keeps the odd ones. */
  lemma KeepOdds(ds: seq<nat>, b: nat, n: nat)
    requires |ds| == 2 * n && b > 0 && AtMost(ds, b - 1)
    ensures Keep(Num(ds, b) / b, b, n) == Num(Odds(ds), b * b)
  {
    if n > 0 {
      var shifted := ds[1..] + [0];
      ModIs(Num(ds, b), b, Num(ds[1..], b), ds[0]);
      NumZero(ds[1..], b);
      KeepEvens(shifted, b, n);
      assert Evens(shifted) == Odds(ds);
    } else {
      assert ds == [] && Num(ds, b) / b == 0;
    }
  }

  lemma {:induction false} NumZero(ds: seq<nat>, b: nat)
    ensures Num(ds + [0], b) == Num(ds, b)
  {
    if ds == [] {
      assert (ds + [0])[1..] == [];
    } else {
      assert (ds + [0])[1..] == ds[1..] + [0];
      NumZero(ds[1..], b);
    }
  }

  lemma {:induction false} NumSums(u: seq<nat>, v: seq<nat>, b: nat)
    requires |u| == |v|
    ensures Num(Sums(u, v), b) == Num(u, b) + Num(v, b)
  {
    if u != [] {
      assert Sums(u, v)[1..] == Sums(u[1..], v[1..]);
      NumSums(u[1..], v[1..], b);
      assert b * (Num(u[1..], b) + Num(v[1..], b)) == b * Num(u[1..], b) + b * Num(v[1..], b);
    }
  }

  lemma {:induction false} NumPairs(ds: seq<nat>, b: nat)
    requires |ds| % 2 == 0
    ensures Num(ds, b) == Num(Evens(ds), b * b) + b * Num(Odds(ds), b * b)
  {
    if ds != [] {
      NumTwo(ds, b);
      TailEvens(ds);
      NumPairs(ds[2..], b);
      Spread(ds[0], ds[1], Num(Evens(ds[2..]), b * b), Num(Odds(ds[2..]), b * b), b);
    }
  }

  lemma Spread(d0: nat, d1: nat, e: nat, o: nat, b: nat)
    ensures d0 + b * (d1 + b * (e + b * o)) == (d0 + b * b * e) + b * (d1 + b * b * o)
  {
  }

  lemma {:induction false} TotalPairwise(ds: seq<nat>)
    requires |ds| % 2 == 0
    ensures Total(Pairwise(ds)) == Total(ds)
  {
    if ds != [] {
      assert ds[1..][1..] == ds[2..];
      assert Pairwise(ds)[1..] == Pairwise(ds[2..]);
      TotalPairwise(ds[2..]);
    }
  }

  function Power(b: nat, n: nat): nat {
    if n == 0 then 1 else b * Power(b, n - 1)
  }

  lemma Below(d: nat, b: nat, n: nat, p: nat)
    requires d < b && n < p
    ensures d + b * n < b * p
  {
    assert b * (n + 1) <= b * p;
  }

  lemma Distribute(b: nat, n: nat, p: nat, m: nat)
    ensures b * (n + p * m) == b * n + (b * p) * m
  {
  }

  lemma {:induction false} NumBelow(ds: seq<nat>, b: nat)
    requires b > 0 && AtMost(ds, b - 1)
    ensures Num(ds, b) < Power(b, |ds|)
  {
    if ds != [] {
      NumBelow(ds[1..], b);
      Below(ds[0], b, Num(ds[1..], b), Power(b, |ds| - 1));
    }
  }

  lemma {:induction false} NumAppend(u: seq<nat>, v: seq<nat>, b: nat)
    ensures Num(u + v, b) == Num(u, b) + Power(b, |u|) * Num(v, b)
  {
    if u == [] {
      assert u + v == v;
    } else {
      assert (u + v)[1..] == u[1..] + v;
      NumAppend(u[1..], v, b);
      Distribute(b, Num(u[1..], b), Power(b, |u| - 1), Num(v, b));
    }
  }

  lemma {:induction false} TotalAppend(u: seq<nat>, v: seq<nat>)
    ensures Total(u + v) == Total(u) + Total(v)
  {
    if u == [] {
      assert u + v == v;
    } else {
      assert (u + v)[1..] == u[1..] + v;
      TotalAppend(u[1..], v);
    }
  }

  // ------------------------------------------------------------ one 32-bit word

  function PairCounts(x: nat): nat {
    (x - Keep(x / 2, 2, 16)) % TWO32
  }

  function NibbleCounts(x: nat): nat {
    (Keep(x, 4, 8) + Keep(x / 4, 4, 8)) % TWO32
  }

  function ByteCounts(x: nat): nat {
    Keep((x + x / 16) % TWO32, 16, 4)
  }

  lemma PairStep(ds: seq<nat>)
    requires |ds| == 32 && AtMost(ds, 1) && Num(ds, 2) < TWO32
    ensures PairCounts(Num(ds, 2)) == Num(Pairwise(ds), 4) < TWO32
  {
    hide Keep, Num, Evens, Odds, Sums;
    var x := Num(ds, 2);
    KeepOdds(ds, 2, 16);
    NumPairs(ds, 2);
    NumSums(Evens(ds), Odds(ds), 4);
    assert x - Keep(x / 2, 2, 16) == Num(Pairwise(ds), 4);
  }

  lemma NibbleStep(ds: seq<nat>)
    requires |ds| == 16 && AtMost(ds, 2) && Num(ds, 4) < TWO32
    ensures NibbleCounts(Num(ds, 4)) == Num(Pairwise(ds), 16) < TWO32
  {
    hide Keep, Num, Evens, Odds, Sums;
    KeepEvens(ds, 4, 8);
    KeepOdds(ds, 4, 8);
    NumPairs(ds, 4);
    NumSums(Evens(ds), Odds(ds), 16);
  }

  /** Nibbles hold at most 4, so neighbours can be added before the mask. */
  lemma ByteStep(ds: seq<nat>)
    requires |ds| == 8 && AtMost(ds, 4)
    ensures ByteCounts(Num(ds, 16)) == Num(Pairwise(ds), 256)
  {
    hide Keep, Num, Power;
    var shifted := ds[1..] + [0];
    var both := Sums(ds, shifted);
    NumHead(ds, 16);
    ModIs(Num(ds, 16), 16, Num(ds[1..], 16), ds[0]);
    NumZero(ds[1..], 16);
    NumSums(ds, shifted, 16);
    NumBelow(both, 16);
    SixteenToThe8();
    KeepEvens(both, 16, 4);
    assert Evens(both) == Pairwise(ds);
  }

  lemma NumHead(ds: seq<nat>, b: nat)
    requires ds != []
    ensures Num(ds, b) == b * Num(ds[1..], b) + ds[0]
  {
  }

  lemma SixteenToThe8()
    ensures Power(16, 8) == TWO32
  {
    assert Power(16, 4) == 65536;
  }

  // -------------------------------------------------------------------- bytes

  /** The n low digits of x, least significant first. */
  function LowBits(x: nat, n: nat): (ds: seq<nat>)
    ensures |ds| == n && AtMost(ds, 1)
  {
    if n == 0 then [] else [x % 2] + LowBits(x / 2, n - 1)
  }

  lemma {:induction false} NumLowBits(x: nat, n: nat)
    requires x < Pow2(n)
    ensures Num(LowBits(x, n), 2) == x
  {
    if n > 0 { NumLowBits(x / 2, n - 1); }
  }

  /** bitsinbyte */
  function BitsInByte(b: Byte): (n: nat)
  {
    Total(LowBits(b, 8))
  }

  function CountBits(p: seq<Byte>): nat {
    if p == [] then 0 else BitsInByte(p[0]) + CountBits(p[1..])
  }

  /** Four bytes in memory order, as a word. */
  function Word(a: Byte, b: Byte, c: Byte, d: Byte): nat {
    a + 256 * (b + 256 * (c + 256 * d))
  }

  function WordBits(a: Byte, b: Byte, c: Byte, d: Byte): (ds: seq<nat>)
    ensures |ds| == 32 && AtMost(ds, 1)
  {
    LowBits(a, 8) + (LowBits(b, 8) + (LowBits(c, 8) + LowBits(d, 8)))
  }

  lemma WordBitsAre(a: Byte, b: Byte, c: Byte, d: Byte)
    ensures Num(WordBits(a, b, c, d), 2) == Word(a, b, c, d) < TWO32
    ensures Total(WordBits(a, b, c, d)) == BitsInByte(a) + BitsInByte(b) + BitsInByte(c) + BitsInByte(d)
  {
    hide Num, LowBits, Total, Pow2, Power;
    Pow2Of8();
    TwoToThe8();
    var u, v, w, x := LowBits(a, 8), LowBits(b, 8), LowBits(c, 8), LowBits(d, 8);
    NumLowBits(a, 8);
    NumLowBits(b, 8);
    NumLowBits(c, 8);
    NumLowBits(d, 8);
    NumAppend(w, x, 2);
    NumAppend(v, w + x, 2);
    NumAppend(u, v + (w + x), 2);
    TotalAppend(w, x);
    TotalAppend(v, w + x);
    TotalAppend(u, v + (w + x));
  }

  lemma TwoToThe8()
    ensures Power(2, 8) == 256
  {
  }

  /** Three steps turn a word into the counts of its four bytes, without borrow or overflow. */
  function Swar(x: nat): nat {
    ByteCounts(NibbleCounts(PairCounts(x)))
  }

  lemma SwarCounts(a: Byte, b: Byte, c: Byte, d: Byte) returns (l: seq<nat>)
    ensures |l| == 4 && AtMost(l, 8) && Swar(Word(a, b, c, d)) == Num(l, 256)
    ensures Total(l) == BitsInByte(a) + BitsInByte(b) + BitsInByte(c) + BitsInByte(d)
  {
    hide Num, Total, ByteCounts, NibbleCounts, PairCounts, Word, BitsInByte, WordBits;
    var ds := WordBits(a, b, c, d);
    WordBitsAre(a, b, c, d);
    PairStep(ds);
    NibbleStep(Pairwise(ds));
    ByteStep(Pairwise(Pairwise(ds)));
    TotalPairwise(ds);
    TotalPairwise(Pairwise(ds));
    TotalPairwise(Pairwise(Pairwise(ds)));
    l := Pairwise(Pairwise(Pairwise(ds)));
  }

  /** The multiplication leaves the sum of the bytes in the top byte; the sums stay below 256. */
  lemma TopByte(s: seq<nat>)
    requires |s| == 4 && AtMost(s, 56)
    ensures Num(s, 256) < TWO32 && Num(s, 256) * 0x01010101 % TWO32 / 0x1000000 == Total(s) <= 224
  {
    hide Num, Total;
    FourDigits(s);
    var t1, t2, t3 := s[0] + s[1], s[0] + s[1] + s[2], s[0] + s[1] + s[2] + s[3];
    var low := s[0] + 256 * t1 + 65536 * t2 + 0x1000000 * t3;
    var high := s[1] + s[2] + s[3] + 256 * (s[2] + s[3]) + 65536 * s[3];
    assert Num(s, 256) * 0x01010101 == TWO32 * high + low;
    ModIs(Num(s, 256) * 0x01010101, TWO32, high, low);
    ModIs(low, 0x1000000, t3, s[0] + 256 * t1 + 65536 * t2);
  }

  lemma FourDigits(s: seq<nat>)
    requires |s| == 4
    ensures Num(s, 256) == s[0] + 256 * s[1] + 65536 * s[2] + 0x1000000 * s[3]
    ensures Total(s) == s[0] + s[1] + s[2] + s[3]
  {
    var t, u, v := s[1..], s[2..], s[3..];
    assert t[1..] == u && u[1..] == v && v[1..] == [];
    assert Num(v, 256) == s[3];
    assert Num(u, 256) == s[2] + 256 * s[3];
    assert Num(t, 256) == s[1] + 256 * Num(u, 256);
    assert Total(v) == s[3] && Total(u) == s[2] + s[3];
  }

  // ---------------------------------------------------------------- the loops

  /** One round of the main loop: seven words, 28 bytes. */
  method Count28(p: seq<Byte>) returns (n: nat)
    requires |p| == 28
    ensures n == CountBits(p)
  {
    hide Swar, CountBits, Num, Total, BitsInByte, Word;
    var sum, k := 0, 0;
    ghost var lanes: seq<nat> := [0, 0, 0, 0];
    NoLanes();
    while k < 7
      invariant 0 <= k <= 7 && |lanes| == 4 && AtMost(lanes, 8 * k) && sum == Num(lanes, 256)
      invariant Total(lanes) + CountBits(p[4 * k..]) == CountBits(p)
    {
      var i := 4 * k;
      var aux := Swar(Word(p[i], p[i + 1], p[i + 2], p[i + 3]));
      ghost var l := SwarCounts(p[i], p[i + 1], p[i + 2], p[i + 3]);
      FourBytes(p[i..]);
      assert p[i..][4..] == p[i + 4..];
      NumSums(lanes, l, 256);
      TotalSums(lanes, l);
      TopByte(Sums(lanes, l));
      lanes := Sums(lanes, l);
      sum, k := (sum + aux) % TWO32, k + 1;
    }
    TopByte(lanes);
    assert p[4 * k..] == [];
    NoBytes();
    n := sum * 0x01010101 % TWO32 / 0x1000000;
  }

  lemma NoLanes()
    ensures Num([0, 0, 0, 0], 256) == 0 && Total([0, 0, 0, 0]) == 0
  {
    FourDigits([0, 0, 0, 0]);
  }

  lemma NoBytes()
    ensures CountBits([]) == 0
  {
  }

  lemma FourBytes(p: seq<Byte>)
    requires |p| >= 4
    ensures CountBits(p) ==
            BitsInByte(p[0]) + BitsInByte(p[1]) + BitsInByte(p[2]) + BitsInByte(p[3]) + CountBits(p[4..])
  {
    hide BitsInByte;
    assert p[1..][1..] == p[2..] && p[2..][1..] == p[3..] && p[3..][1..] == p[4..];
  }

  lemma {:induction false} TotalSums(u: seq<nat>, v: seq<nat>)
    requires |u| == |v|
    ensures Total(Sums(u, v)) == Total(u) + Total(v)
  {
    if u != [] {
      assert Sums(u, v)[1..] == Sums(u[1..], v[1..]);
      TotalSums(u[1..], v[1..]);
    }
  }

  lemma {:induction false} CountAppend(p: seq<Byte>, q: seq<Byte>)
    ensures CountBits(p + q) == CountBits(p) + CountBits(q)
  {
    hide BitsInByte;
    if p == [] {
      assert p + q == q;
    } else {
      assert (p + q)[1..] == p[1..] + q;
      CountAppend(p[1..], q);
    }
  }

  /** redisPopcount, for a string at any address. */
  method RedisPopcount(p: seq<Byte>, address: nat) returns (bits: nat)
    ensures bits == CountBits(p)
  {
    hide BitsInByte;
    bits := 0;
    var i := 0;
    while (address + i) % 4 != 0 && i < |p|
      decreases |p| - i
      invariant 0 <= i <= |p| && bits + CountBits(p[i..]) == CountBits(p)
    {
      assert p[i..][1..] == p[i + 1..];
      bits, i := bits + BitsInByte(p[i]), i + 1;
    }
    while |p| - i >= 28
      invariant 0 <= i <= |p| && bits + CountBits(p[i..]) == CountBits(p)
    {
      CountAppend(p[i..i + 28], p[i + 28..]);
      assert p[i..] == p[i..i + 28] + p[i + 28..];
      var n := Count28(p[i..i + 28]);
      bits, i := bits + n, i + 28;
    }
    while i < |p|
      invariant 0 <= i <= |p| && bits + CountBits(p[i..]) == CountBits(p)
    {
      assert p[i..][1..] == p[i + 1..];
      bits, i := bits + BitsInByte(p[i]), i + 1;
    }
  }

  // ------------------------------------------------------------- bit by bit

  function CountTrue(bs: seq<bool>): nat {
    if bs == [] then 0 else Digit(bs[0]) + CountTrue(bs[1..])
  }

  lemma {:induction false} CountTrueAppend(a: seq<bool>, b: seq<bool>)
    ensures CountTrue(a + b) == CountTrue(a) + CountTrue(b)
  {
    if a == [] {
      assert a + b == b;
    } else {
      assert (a + b)[1..] == a[1..] + b;
      CountTrueAppend(a[1..], b);
    }
  }

  lemma {:induction false} CountSpell(v: nat, n: nat)
    ensures CountTrue(Spell(v, n)) == Total(LowBits(v, n))
  {
    if n > 0 {
      CountSpell(v / 2, n - 1);
      CountTrueAppend(Spell(v / 2, n - 1), [v % 2 == 1]);
      assert [v % 2 == 1][1..] == [];
      assert LowBits(v, n)[1..] == LowBits(v / 2, n - 1);
    }
  }

  lemma FieldByByte(p: seq<Byte>)
    requires p != []
    ensures Field(p, 0, 8 * |p|) == Spell(p[0], 8) + Field(p[1..], 0, 8 * (|p| - 1))
  {
    hide TestBit, Spell;
    forall k | 0 <= k < 8 * |p|
      ensures Field(p, 0, 8 * |p|)[k] == (Spell(p[0], 8) + Field(p[1..], 0, 8 * (|p| - 1)))[k]
    {
      if k < 8 { SpellDigit(p[0], 8, k); } else { assert (k - 8) / 8 == k / 8 - 1 && (k - 8) % 8 == k % 8; }
    }
  }

  /** The count is the number of bits of the string that are set, taken one by one. */
  lemma {:induction false} CountIsBitByBit(p: seq<Byte>)
    ensures CountBits(p) == CountTrue(Field(p, 0, 8 * |p|))
  {
    hide Spell, LowBits, Total, BitAt;
    if p == [] {
      assert Field(p, 0, 0) == [];
    } else {
      FieldByByte(p);
      CountSpell(p[0], 8);
      CountTrueAppend(Spell(p[0], 8), Field(p[1..], 0, 8 * (|p| - 1)));
      CountIsBitByBit(p[1..]);
    }
  }

  // ------------------------------------------------------- masks and the table

  /** n groups of w ones, w digits apart. */
  function Mask(w: nat, n: nat): nat {
    if n == 0 then 0 else Pow2(w) - 1 + Pow2(2 * w) * Mask(w, n - 1)
  }

  function Width(w: nat, n: nat): nat {
    if n == 0 then 0 else 2 * w + Width(w, n - 1)
  }

  lemma ModMod(x: nat, b: nat)
    requires b > 0
    ensures b * b > 0 && x % (b * b) % b == x % b
  {
    var q, r := x / (b * b), x % (b * b);
    assert b * b * q == b * (b * q);
    assert x == b * (b * q + r / b) + r % b;
    ModIs(x, b, b * q + r / b, r % b);
  }

  lemma LowHigh(x: nat, b: nat, p: nat)
    requires b > 0 && p == b * b
    ensures p > 0 && x % p == x % b + b * (x % p / b) && x % b < b && x % p / b >= 0
  {
    ModMod(x, b);
  }

  /** One group: w ones keep the low half of 2 * w digits. */
  lemma AndLow(lo: nat, hi: nat, w: nat)
    requires lo < Pow2(w)
    ensures Bitwise(And, lo + Shift(hi, w), Pow2(w) - 1, w + w) == lo
  {
    hide Pow2, Bitwise, Shift;
    ShiftIs(0, w);
    BitwiseSplit(And, lo, hi, Pow2(w) - 1, 0, w, w);
    AndOnes(lo, w);
    AndZero(hi, w);
  }

  lemma AndModulo(x: nat, w: nat, b: nat, p: nat)
    requires b > 0 && p > 0 && b == Pow2(w) && p == Pow2(w + w)
    ensures Bitwise(And, x % p, b - 1, w + w) == x % b
  {
    hide Pow2, Bitwise, Shift;
    Pow2Add(w, w);
    LowHigh(x, b, p);
    var lo, hi := x % b, x % p / b;
    ShiftIs(hi, w);
    AndLow(lo, hi, w);
  }

  /** Keeping every other digit is a bitwise AND with a mask, for every word. */
  lemma {:induction false} KeepIsAnd(x: nat, w: nat, n: nat)
    ensures Keep(x, Pow2(w), n) == Bitwise(And, x, Mask(w, n), Width(w, n))
    decreases n
  {
    hide Pow2, Bitwise, Shift, Keep, Mask;
    Unfolded(x, w, n);
    if n == 0 {
      AndZero(x, 0);
    } else {
      KeepIsAnd(x / Pow2(2 * w), w, n - 1);
      AndGroup(x, w, Mask(w, n - 1), Width(w, n - 1), Pow2(w), Pow2(2 * w));
    }
  }

  /** The lowest group apart from the others. */
  lemma AndGroup(x: nat, w: nat, m: nat, e: nat, b: nat, p: nat)
    requires b > 0 && p > 0 && b == Pow2(w) && p == Pow2(w + w)
    ensures Bitwise(And, x, b - 1 + p * m, w + w + e) == x % b + p * Bitwise(And, x / p, m, e)
  {
    hide Pow2, Bitwise, Shift;
    var lo, hi := x % p, x / p;
    assert x == lo + Shift(hi, w + w) by { ShiftIs(hi, w + w); }
    ShiftIs(m, w + w);
    ShiftIs(Bitwise(And, hi, m, e), w + w);
    Pow2Grows(w, w + w);
    BitwiseSplit(And, lo, hi, b - 1, m, w + w, e);
    AndModulo(x, w, b, p);
  }

  lemma Unfolded(x: nat, w: nat, n: nat)
    ensures n == 0 ==> Keep(x, Pow2(w), n) == 0 && Mask(w, n) == 0
    ensures n > 0 ==>
              var p := Pow2(2 * w);
              && Keep(x, Pow2(w), n) == x % Pow2(w) + p * Keep(x / p, Pow2(w), n - 1)
              && Mask(w, n) == Pow2(w) - 1 + p * Mask(w, n - 1)
  {
    hide Pow2;
    Pow2Add(w, w);
  }

  /** The masks of the source. */
  lemma MasksAre(x: nat)
    ensures Keep(x, 2, 16) == Bitwise(And, x, 0x55555555, 32)
    ensures Keep(x, 4, 8) == Bitwise(And, x, 0x33333333, 32)
    ensures Keep(x, 16, 4) == Bitwise(And, x, 0x0F0F0F0F, 32)
  {
    hide Keep, Bitwise, Mask, Width, Pow2;
    Mask1();
    Mask2();
    Mask4();
    KeepIsAnd(x, 1, 16);
    KeepIsAnd(x, 2, 8);
    KeepIsAnd(x, 4, 4);
  }

  lemma Mask1()
    ensures Pow2(1) == 2 && Mask(1, 16) == 0x55555555 && Width(1, 16) == 32
  {
    assert Mask(1, 4) == 0x55 && Mask(1, 8) == 0x5555 && Mask(1, 12) == 0x555555;
    assert Width(1, 8) == 16;
  }

  lemma Mask2()
    ensures Pow2(2) == 4 && Mask(2, 8) == 0x33333333 && Width(2, 8) == 32
  {
    assert Mask(2, 4) == 0x3333;
  }

  lemma Mask4()
    ensures Pow2(4) == 16 && Mask(4, 4) == 0x0F0F0F0F && Width(4, 4) == 32
  {
  }

  /** bitsinbyte, in rows of sixteen. */
  function BitsTable(): seq<seq<nat>> {
    [
     [0, 1, 1, 2, 1, 2, 2, 3, 1, 2, 2, 3, 2, 3, 3, 4],
     [1, 2, 2, 3, 2, 3, 3, 4, 2, 3, 3, 4, 3, 4, 4, 5],
     [1, 2, 2, 3, 2, 3, 3, 4, 2, 3, 3, 4, 3, 4, 4, 5],
     [2, 3, 3, 4, 3, 4, 4, 5, 3, 4, 4, 5, 4, 5, 5, 6],
     [1, 2, 2, 3, 2, 3, 3, 4, 2, 3, 3, 4, 3, 4, 4, 5],
     [2, 3, 3, 4, 3, 4, 4, 5, 3, 4, 4, 5, 4, 5, 5, 6],
     [2, 3, 3, 4, 3, 4, 4, 5, 3, 4, 4, 5, 4, 5, 5, 6],
     [3, 4, 4, 5, 4, 5, 5, 6, 4, 5, 5, 6, 5, 6, 6, 7],
     [1, 2, 2, 3, 2, 3, 3, 4, 2, 3, 3, 4, 3, 4, 4, 5],
     [2, 3, 3, 4, 3, 4, 4, 5, 3, 4, 4, 5, 4, 5, 5, 6],
     [2, 3, 3, 4, 3, 4, 4, 5, 3, 4, 4, 5, 4, 5, 5, 6],
     [3, 4, 4, 5, 4, 5, 5, 6, 4, 5, 5, 6, 5, 6, 6, 7],
     [2, 3, 3, 4, 3, 4, 4, 5, 3, 4, 4, 5, 4, 5, 5, 6],
     [3, 4, 4, 5, 4, 5, 5, 6, 4, 5, 5, 6, 5, 6, 6, 7],
     [3, 4, 4, 5, 4, 5, 5, 6, 4, 5, 5, 6, 5, 6, 6, 7],
     [4, 5, 5, 6, 5, 6, 6, 7, 5, 6, 6, 7, 6, 7, 7, 8]
    ]
  }

  function Nibble(x: nat): nat {
    Total(LowBits(x, 4))
  }

  lemma NibbleIs(x: nat)
    requires x < 16
    ensures Raised(0)[x] == Nibble(x)
  {
    hide Nibble, Raised;
    NibbleSum(x);
    RaisedAt(x);
  }

  lemma RaisedAt(x: nat)
    requires x < 16
    ensures Raised(0)[x] == x % 2 + x / 2 % 2 + x / 2 / 2 % 2 + x / 2 / 2 / 2 % 2
  {
    if x < 8 {
      if x < 4 { assert x in {0, 1, 2, 3}; } else { assert x in {4, 5, 6, 7}; }
    } else {
      if x < 12 { assert x in {8, 9, 10, 11}; } else { assert x in {12, 13, 14, 15}; }
    }
  }

  lemma NibbleSum(x: nat)
    ensures Nibble(x) == x % 2 + x / 2 % 2 + x / 2 / 2 % 2 + x / 2 / 2 / 2 % 2
  {
    var a, b, c := x / 2, x / 2 / 2, x / 2 / 2 / 2;
    assert LowBits(c, 1) == [c % 2] && Total(LowBits(c, 1)) == c % 2;
    assert Total(LowBits(b, 2)) == b % 2 + c % 2;
    assert Total(LowBits(a, 3)) == a % 2 + (b % 2 + c % 2);
  }

  function Raised(n: nat): (row: seq<nat>)
    ensures |row| == 16
  {
    [n, n + 1, n + 1, n + 2, n + 1, n + 2, n + 2, n + 3, n + 1, n + 2, n + 2, n + 3, n + 2, n + 3, n + 3, n + 4]
  }

  /** Every row is the first, raised by the number of bits in its index. */
  lemma RowIs(r: nat)
    requires r < 16
    ensures |BitsTable()| == 16 && BitsTable()[r] == Raised(Raised(0)[r])
  {
  }

  /** The table counts the bits of every byte. */
  lemma TableCounts(b: Byte)
    ensures |BitsTable()| == 16 && |BitsTable()[b / 16]| == 16 && BitsTable()[b / 16][b % 16] == BitsInByte(b)
  {
    hide BitsTable, LowBits, Total;
    RowIs(b / 16);
    NibbleIs(b / 16);
    NibbleIs(b % 16);
    TwoNibbles(b / 16, b % 16);
    TotalAppend(LowBits(b % 16, 4), LowBits(b / 16, 4));
  }

  lemma TwoNibbles(hi: nat, lo: nat)
    requires lo < 16
    ensures LowBits(16 * hi + lo, 8) == LowBits(lo, 4) + LowBits(hi, 4)
  {
    hide LowBits;
    LowBit(lo, 8 * hi, 8);
    LowBit(lo / 2, 4 * hi, 7);
    LowBit(lo / 2 / 2, 2 * hi, 6);
    LowBit(lo / 2 / 2 / 2, hi, 5);
    LowBit(lo, 0, 4);
    LowBit(lo / 2, 0, 3);
    LowBit(lo / 2 / 2, 0, 2);
    LowBit(lo / 2 / 2 / 2, 0, 1);
    NoBits(lo / 2 / 2 / 2 / 2);
  }

  lemma LowBit(lo: nat, h: nat, n: nat)
    requires n > 0
    ensures LowBits(lo + 2 * h, n) == [lo % 2] + LowBits(lo / 2 + h, n - 1)
  {
    HalfOf(lo, h);
  }

  lemma NoBits(x: nat)
    ensures LowBits(x, 0) == []
  {
  }
}
