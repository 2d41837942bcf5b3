/** BITFIELD: integers of arbitrary width at arbitrary bit offsets of a string. */
module Bitfield {
  import opened Wrappers
  import opened Sequences
  import opened Bits

  datatype Overflow = Wrap | Sat | Fail

  // -------------------------------------------------------- 64-bit arithmetic

  function ToU64(x: int): (u: nat)
    ensures u < TWO64
  {
    x % TWO64
  }

  function ToI64(x: int): int {
    if ToU64(x) >= TWO63 then ToU64(x) - TWO64 else ToU64(x)
  }

  predicate IsI64(x: int) {
    -TWO63 <= x < TWO63
  }

  /** checkUnsignedBitfieldOverflow: 0 and no limit, or a direction and, unless FAIL, the value to store. */
  function CheckUnsigned(value: nat, incr: int, bits: nat, ow: Overflow): (int, Option<int>)
    requires value < TWO64 && IsI64(incr) && 1 <= bits <= 63
  {
    var max := Pow2(bits) - 1;
    var maxincr, minincr := ToI64(max - value), ToI64(0 - value);
    var wrapped := ToU64(value + incr) % Pow2(bits);
    if value > max || (incr > 0 && incr > maxincr) then
      (1, if ow.Wrap? then Some(wrapped) else if ow.Sat? then Some(max) else None)
    else if incr < 0 && incr < minincr then
      if ow.Wrap? then (1, Some(wrapped)) else (-1, if ow.Sat? then Some(0) else None)
    else (0, None)
  }

  /** checkSignedBitfieldOverflow; maxincr and minincr wrap around like 64-bit integers. */
  function CheckSigned(value: int, incr: int, bits: nat, ow: Overflow): (int, Option<int>)
    requires IsI64(value) && IsI64(incr) && 1 <= bits <= 64
  {
    var max := Pow2(bits - 1) - 1;
    var min := -max - 1;
    var maxincr, minincr := ToI64(max - value), ToI64(min - value);
    var wrapped := SignExtend(ToU64(value + incr), bits);
    if value > max || (bits != 64 && incr > maxincr) || (value >= 0 && incr > 0 && incr > maxincr) then
      (1, if ow.Wrap? then Some(wrapped) else if ow.Sat? then Some(max) else None)
    else if value < min || (bits != 64 && incr < minincr) || (value < 0 && incr < 0 && incr < minincr) then
      if ow.Wrap? then (1, Some(wrapped)) else (-1, if ow.Sat? then Some(min) else None)
    else (0, None)
  }

  /** Propagate digit bits - 1 of a 64-bit word to all higher digits, then read the word as signed. */
  function SignExtend(c: nat, bits: nat): int
    requires 1 <= bits <= 64
  {
    var low := c % Pow2(bits);
    ToI64(if bits < 64 && TestBit(c, bits - 1) then low + (TWO64 - Pow2(bits)) else low)
  }

  /** What INCRBY stores; None leaves the field alone. */
  function IncrUnsigned(before: nat, incr: int, bits: nat, ow: Overflow): Option<int>
    requires before < TWO64 && IsI64(incr) && 1 <= bits <= 63
  {
    var (code, limit) := CheckUnsigned(before, incr, bits, ow);
    if code != 0 then limit else Some(ToU64(before + incr))
  }

  function IncrSigned(before: int, incr: int, bits: nat, ow: Overflow): Option<int>
    requires IsI64(before) && IsI64(incr) && 1 <= bits <= 64
  {
    var (code, limit) := CheckSigned(before, incr, bits, ow);
    if code != 0 then limit else Some(ToI64(before + incr))
  }

  function SetUnsigned(v: int, bits: nat, ow: Overflow): Option<int>
    requires IsI64(v) && 1 <= bits <= 63
  {
    var (code, limit) := CheckUnsigned(ToU64(v), 0, bits, ow);
    if code != 0 then limit else Some(ToU64(v))
  }

  function SetSigned(v: int, bits: nat, ow: Overflow): Option<int>
    requires IsI64(v) && 1 <= bits <= 64
  {
    var (code, limit) := CheckSigned(v, 0, bits, ow);
    if code != 0 then limit else Some(v)
  }

  // ------------------------------------------------------ integer semantics

  function Lowest(sign: bool, bits: nat): int
    requires bits >= 1
  {
    if sign then 0 - Pow2(bits - 1) else 0
  }

  function Highest(sign: bool, bits: nat): int
    requires bits >= 1
  {
    Lowest(sign, bits) + Pow2(bits) - 1
  }

  /** x modulo 2^bits, in the range of the type. */
  function Wrapped(x: int, sign: bool, bits: nat): (y: int)
    requires bits >= 1
    ensures Lowest(sign, bits) <= y <= Highest(sign, bits)
  {
    (x - Lowest(sign, bits)) % Pow2(bits) + Lowest(sign, bits)
  }

  predicate InRange(x: int, sign: bool, bits: nat)
    requires bits >= 1
  {
    Lowest(sign, bits) <= x <= Highest(sign, bits)
  }

  lemma WrappedInRange(x: int, sign: bool, bits: nat)
    requires bits >= 1 && InRange(x, sign, bits)
    ensures Wrapped(x, sign, bits) == x
  {
    hide Pow2;
    ModIs(x - Lowest(sign, bits), Pow2(bits), 0, x - Lowest(sign, bits));
  }

  /** How an integer that may not fit is stored. */
  function Fit(x: int, sign: bool, bits: nat, ow: Overflow): Option<int>
    requires bits >= 1
  {
    if InRange(x, sign, bits) then Some(x)
    else match ow
      case Wrap => Some(Wrapped(x, sign, bits))
      case Sat => Some(if x < Lowest(sign, bits) then Lowest(sign, bits) else Highest(sign, bits))
      case Fail => None
  }

  function Distance(x: int, y: int): nat {
    if x < y then y - x else x - y
  }

  predicate Congruent(x: int, z: int, p: nat)
    requires p > 0
  {
    (x - z) % p == 0
  }

  lemma Shifted(x: int, z: int, low: int, p: nat)
    requires p > 0 && Congruent(x, z, p)
    ensures x - low == p * ((x - z) / p) + (z - low)
  {}

  lemma WrappedOnly(x: int, sign: bool, bits: nat, z: int)
    requires bits >= 1 && InRange(z, sign, bits) && Congruent(x, z, Pow2(bits))
    ensures Wrapped(x, sign, bits) == z
  {
    hide Pow2;
    var low, p := Lowest(sign, bits), Pow2(bits);
    Shifted(x, z, low, p);
    ModIs(x - low, p, (x - z) / p, z - low);
  }

  /** What storing an integer means: one that fits is stored as it is; WRAP stores the only integer of the
      range that differs by a multiple of 2^bits, SAT the nearest one of the range, FAIL none. The range
      has 2^bits integers, from zero on or half of them negative. */
  lemma FitMeans(x: int, sign: bool, bits: nat, ow: Overflow, z: int)
    requires bits >= 1 && InRange(z, sign, bits)
    ensures Highest(sign, bits) - Lowest(sign, bits) + 1 == Pow2(bits)
    ensures if sign then Highest(sign, bits) == -1 - Lowest(sign, bits) else Lowest(sign, bits) == 0
    ensures var r := Fit(x, sign, bits, ow);
            && (InRange(x, sign, bits) ==> r == Some(x))
            && (!InRange(x, sign, bits) ==> (r.None? <==> ow.Fail?))
            && (r.Some? ==> InRange(r.value, sign, bits))
            && (ow.Wrap? && Congruent(x, z, Pow2(bits)) ==> r == Some(z))
            && (ow.Sat? ==> r.Some? && Distance(r.value, x) <= Distance(z, x))
  {
    hide Pow2, Wrapped, Congruent;
    Pow2Next(bits - 1);
    if ow.Wrap? && Congruent(x, z, Pow2(bits)) {
      WrappedOnly(x, sign, bits, z);
      if InRange(x, sign, bits) { WrappedInRange(x, sign, bits); }
    }
  }

  lemma Sizes(bits: nat)
    requires 1 <= bits <= 64
    ensures Pow2(bits) == 2 * Pow2(bits - 1) && 1 <= Pow2(bits - 1) <= TWO63
    ensures bits < 64 ==> Pow2(bits) <= TWO63
    ensures bits == 64 ==> Pow2(bits) == TWO64
  {
    hide Pow2;
    Pow2Values();
    Pow2Next(bits - 1);
    Pow2Grows(bits - 1, 63);
    if bits < 64 { Pow2Grows(bits, 63); }
  }

  /** Taking a 64-bit residue first does not change the residue modulo a smaller power of two. */
  lemma ModMod(x: int, bits: nat)
    requires bits <= 64
    ensures ToU64(x) % Pow2(bits) == x % Pow2(bits)
  {
    hide Pow2;
    Pow2Values();
    Pow2Add(bits, 64 - bits);
    var p, q := Pow2(bits), Pow2(64 - bits);
    var h, r := ToU64(x) / p, ToU64(x) % p;
    assert x == TWO64 * (x / TWO64) + ToU64(x);
    assert TWO64 * (x / TWO64) == p * (q * (x / TWO64));
    assert x == p * (q * (x / TWO64) + h) + r;
    ModIs(x, p, q * (x / TWO64) + h, r);
  }

  /** In range, 64-bit conversions change nothing; one word too low or too high, they add or take one. */
  lemma Conversions(x: int)
    ensures 0 <= x < TWO64 ==> ToU64(x) == x
    ensures -TWO64 <= x < 0 ==> ToU64(x) == x + TWO64
    ensures IsI64(x) ==> ToI64(x) == x
    ensures TWO63 <= x < TWO64 ==> ToI64(x) == x - TWO64
    ensures IsI64(ToI64(x))
  {
  }

  /** For every in-range value and every increment, INCRBY on an unsigned field is integer
      addition, and overflow is reported exactly when the sum leaves the range. */
  lemma IncrUnsignedIsFit(before: nat, incr: int, bits: nat, ow: Overflow)
    requires 1 <= bits <= 63 && InRange(before, false, bits) && IsI64(incr)
    ensures before < TWO64 && IncrUnsigned(before, incr, bits, ow) == Fit(before + incr, false, bits, ow)
    ensures CheckUnsigned(before, incr, bits, ow).0 != 0 <==> !InRange(before + incr, false, bits)
  {
    hide Pow2, ToU64, ToI64, Wrapped;
    Sizes(bits);
    WrappedUnsigned(before + incr, bits);
    Conversions(Pow2(bits) - 1 - before);
    Conversions(0 - before);
    Conversions(before + incr);
  }

  lemma WrappedUnsigned(x: int, bits: nat)
    requires 1 <= bits <= 64
    ensures ToU64(x) % Pow2(bits) == Wrapped(x, false, bits)
  {
    hide Pow2, ToU64;
    ModMod(x, bits);
  }

  lemma HighDigit(c: nat, bits: nat)
    requires bits >= 1
    ensures TestBit(c, bits - 1) <==> c % Pow2(bits) >= Pow2(bits - 1)
  {
    if bits == 1 {
      assert c % 2 < 2;
    } else {
      HighDigit(c / 2, bits - 1);
      ModHalf(c, Pow2(bits - 1));
    }
  }

  lemma SignExtendIs(x: int, bits: nat)
    requires 1 <= bits <= 64
    ensures SignExtend(ToU64(x), bits) == Wrapped(x, true, bits)
  {
    hide Pow2, TestBit, ToU64, ToI64;
    Sizes(bits);
    ModMod(x, bits);
    HighDigit(ToU64(x), bits);
    var p, h := Pow2(bits), Pow2(bits - 1);
    var r := x % p;
    Recentred(x, p, h);
    Conversions(r);
    Conversions(r + TWO64 - p);
    SignExtendLow(ToU64(x), bits);
  }

  lemma Recentred(x: int, p: int, h: int)
    requires p == 2 * h && h > 0
    ensures (x + h) % p - h == if x % p >= h then x % p - p else x % p
  {
    var r := x % p;
    assert x == p * (x / p) + r;
    if r >= h {
      ModIs(x + h, p, x / p + 1, r - h);
    } else {
      ModIs(x + h, p, x / p, r + h);
    }
  }

  lemma SignExtendLow(c: nat, bits: nat)
    requires 1 <= bits <= 64
    ensures var low := c % Pow2(bits);
            SignExtend(c, bits) == ToI64(if bits < 64 && TestBit(c, bits - 1) then low + (TWO64 - Pow2(bits)) else low)
  {
  }

  /** The same for signed fields, up to the full 64 bits, despite 64-bit intermediates. */
  lemma IncrSignedIsFit(before: int, incr: int, bits: nat, ow: Overflow)
    requires 1 <= bits <= 64 && InRange(before, true, bits) && IsI64(incr)
    ensures IsI64(before) && IncrSigned(before, incr, bits, ow) == Fit(before + incr, true, bits, ow)
    ensures CheckSigned(before, incr, bits, ow).0 != 0 <==> !InRange(before + incr, true, bits)
  {
    hide Pow2, TestBit, SignExtend, ToI64, ToU64, Wrapped;
    Sizes(bits);
    SignExtendIs(before + incr, bits);
    Conversions(Pow2(bits - 1) - 1 - before);
    Conversions(0 - Pow2(bits - 1) - before);
    Conversions(before + incr);
  }

  // --------------------------------------------------------------- SET's check

  /** SET of an unsigned field sees a negative argument as a huge one, so that it saturates to the
      greatest value instead of zero: otherwise it stores what integer semantics asks for. */
  lemma SetUnsignedExact(v: int, bits: nat, ow: Overflow)
    requires IsI64(v) && 1 <= bits <= 63
    ensures SetUnsigned(v, bits, ow) == Fit(v, false, bits, ow) <==> !(ow.Sat? && v < 0)
    ensures ow.Sat? && v < 0 ==> SetUnsigned(v, bits, ow) == Some(Highest(false, bits))
  {
    hide Pow2, ToU64, ToI64, Wrapped;
    Sizes(bits);
    WrappedUnsigned(v, bits);
    Conversions(v);
    WrappedUnsigned(ToU64(v), bits);
    Conversions(ToU64(v));
  }

  /** SET of a signed field computes max - value in 64 bits. When that overflows, a far too small
      argument is taken for a far too large one, and saturates to the wrong end. */
  lemma SetSignedExact(v: int, bits: nat, ow: Overflow)
    requires IsI64(v) && 1 <= bits <= 64
    ensures SetSigned(v, bits, ow) == Fit(v, true, bits, ow) <==>
            !(ow.Sat? && bits < 64 && Highest(true, bits) - v >= TWO63)
    ensures ow.Sat? && bits < 64 && Highest(true, bits) - v >= TWO63 ==>
            SetSigned(v, bits, ow) == Some(Highest(true, bits))
  {
    hide Pow2, TestBit, SignExtend, ToI64, ToU64, Wrapped;
    Sizes(bits);
    SignExtendIs(v, bits);
    Conversions(Pow2(bits - 1) - 1 - v);
    Conversions(0 - Pow2(bits - 1) - v);
  }

  /** For one: SET i8 with the least 64-bit integer and OVERFLOW SAT stores 127, not -128. */
  lemma SaturatesToWrongEnd()
    ensures SetSigned(-TWO63, 8, Sat) == Some(127) && Fit(-TWO63, true, 8, Sat) == Some(-128)
  {
    hide TestBit, SignExtend;
    assert Pow2(7) == 128;
  }
}
