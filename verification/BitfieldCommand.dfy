/** Fields in strings of bytes, and the BITFIELD command over them. */
module BitfieldCommand {
  import opened Wrappers
  import opened Sequences
  import opened Bits
  import opened Bitfield

  // ------------------------------------------------------------------ writing

  function NewBit(p: seq<Byte>, offset: nat, bs: seq<bool>, k: nat): bool {
    if offset <= k < offset + |bs| then bs[k - offset] else BitAt(p, k)
  }

  function Merged(p: seq<Byte>, offset: nat, bs: seq<bool>, i: nat): Byte {
    Pow2Of8();
    Value(seq(8, j requires 0 <= j < 8 => NewBit(p, offset, bs, 8 * i + j)))
  }

  /** The string with bits bs from offset on, as far as it reaches. */
  function Write(p: seq<Byte>, offset: nat, bs: seq<bool>): (q: seq<Byte>)
    ensures |q| == |p|
  {
    seq(|p|, i requires 0 <= i < |p| => Merged(p, offset, bs, i))
  }

  lemma WriteBit(p: seq<Byte>, offset: nat, bs: seq<bool>, k: nat)
    requires k < 8 * |p|
    ensures BitAt(Write(p, offset, bs), k) == NewBit(p, offset, bs, k)
  {
    hide NewBit, TestBit;
    var i, j := k / 8, k % 8;
    var b := seq(8, j requires 0 <= j < 8 => NewBit(p, offset, bs, 8 * i + j));
    SpellValue(b);
    SpellDigit(Value(b), 8, j);
  }

  /** Strings of the same length with the same bits are the same. */
  lemma SameBits(p: seq<Byte>, q: seq<Byte>)
    requires |p| == |q| && forall k: nat | k < 8 * |p| :: BitAt(p, k) == BitAt(q, k)
    ensures p == q
  {
    hide TestBit;
    forall i | 0 <= i < |p| ensures p[i] == q[i] {
      forall m: nat | m < 8 ensures TestBit(p[i], m) == TestBit(q[i], m) {
        assert BitAt(p, 8 * i + 7 - m) == BitAt(q, 8 * i + 7 - m);
      }
      SameByte(p[i], q[i]);
    }
  }

  lemma WriteNext(p: seq<Byte>, offset: nat, bs: seq<bool>, v: bool)
    ensures Write(Write(p, offset, bs), offset + |bs|, [v]) == Write(p, offset, bs + [v])
  {
    hide BitAt, Write;
    var q := Write(p, offset, bs);
    forall k: nat | k < 8 * |p| ensures BitAt(Write(q, offset + |bs|, [v]), k) == BitAt(Write(p, offset, bs + [v]), k) {
      WriteBit(p, offset, bs, k);
      WriteBit(q, offset + |bs|, [v], k);
      WriteBit(p, offset, bs + [v], k);
    }
    SameBits(Write(q, offset + |bs|, [v]), Write(p, offset, bs + [v]));
  }

  lemma WriteNothing(p: seq<Byte>, offset: nat)
    ensures Write(p, offset, []) == p
  {
    hide BitAt, Write;
    forall k: nat | k < 8 * |p| ensures BitAt(Write(p, offset, []), k) == BitAt(p, k) { WriteBit(p, offset, [], k); }
    SameBits(Write(p, offset, []), p);
  }

  lemma WriteOne(p: seq<Byte>, offset: nat, v: bool, q: seq<Byte>)
    requires offset < 8 * |p| && |q| == |p|
    requires q[offset / 8] == PutBit(p[offset / 8], 7 - offset % 8, v)
    requires forall i | 0 <= i < |p| && i != offset / 8 :: q[i] == p[i]
    ensures q == Write(p, offset, [v])
  {
    hide TestBit, PutBit, Write;
    forall k: nat | k < 8 * |p| ensures BitAt(q, k) == BitAt(Write(p, offset, [v]), k) {
      WriteBit(p, offset, [v], k);
      if k / 8 == offset / 8 {
        PutTest(p[k / 8], 7 - offset % 8, v, 7 - k % 8);
        assert k % 8 == offset % 8 ==> k == offset;
      }
    }
    SameBits(q, Write(p, offset, [v]));
  }

  method SetOneBit(p: array<Byte>, offset: nat, bitval: bool)
    requires offset < 8 * p.Length
    modifies p
    ensures p[..] == Write(old(p[..]), offset, [bitval])
  {
    hide PutBit, Write, TestBit;
    var byte, bit := offset / 8, 7 - offset % 8;
    Pow2Of8();
    PutBelow(p[byte], bit, bitval, 8);
    p[byte] := PutBit(p[byte], bit, bitval);
    WriteOne(old(p[..]), offset, bitval, p[..]);
  }

  /** The field gets the low digits of value and nothing else changes. */
  method SetUnsignedBitfield(p: array<Byte>, offset: nat, bits: nat, value: nat)
    requires offset + bits <= 8 * p.Length
    modifies p
    ensures p[..] == Write(old(p[..]), offset, Spell(value, bits))
  {
    hide Write, TestBit, Spell;
    ghost var bs := Spell(value, bits);
    WriteNothing(p[..], offset);
    assert bs[..0] == [];
    for j := 0 to bits
      invariant p[..] == Write(old(p[..]), offset, bs[..j])
    {
      var bitval := TestBit(value, bits - 1 - j);
      SpellDigit(value, bits, j);
      WriteNext(old(p[..]), offset, bs[..j], bitval);
      assert bs[..j + 1] == bs[..j] + [bitval];
      SetOneBit(p, offset + j, bitval);
    }
    assert bs[..bits] == bs;
  }

  method SetSignedBitfield(p: array<Byte>, offset: nat, bits: nat, value: int)
    requires offset + bits <= 8 * p.Length
    modifies p
    ensures p[..] == Write(old(p[..]), offset, Spell(ToU64(value), bits))
  {
    SetUnsignedBitfield(p, offset, bits, ToU64(value));
  }

  // ------------------------------------------------------------------ reading

  /** Reading builds the number bit by bit in 64 bits, without losing any. */
  method GetUnsignedBitfield(p: array<Byte>, offset: nat, bits: nat) returns (value: nat)
    requires offset + bits <= 8 * p.Length && bits <= 64
    ensures value == Value(Field(p[..], offset, bits))
  {
    hide TestBit, Pow2, BitAt;
    ghost var bs := Field(p[..], offset, bits);
    value := 0;
    for j := 0 to bits
      invariant value == Value(bs[..j])
    {
      var byte, bit := (offset + j) / 8, 7 - (offset + j) % 8;
      var bitval := TestBit(p[byte], bit);
      assert bitval == bs[j] by { BitOf(p[..], offset + j); }
      assert bs[..j + 1][..j] == bs[..j];
      Pow2Values();
      Pow2Grows(j + 1, 64);
      value := (2 * value + Digit(bitval)) % TWO64;
    }
    assert bs[..bits] == bs;
  }

  lemma BitOf(p: seq<Byte>, k: nat)
    requires k < 8 * |p|
    ensures BitAt(p, k) == TestBit(p[k / 8], 7 - k % 8)
  {
  }

  function ReadInt(p: seq<Byte>, sign: bool, bits: nat, offset: nat): int
    requires bits >= 1
  {
    Wrapped(Value(Field(p, offset, bits)), sign, bits)
  }

  /** The number that bytes spell, most significant first. */
  function BigEndian(bs: seq<Byte>): nat {
    if bs == [] then 0 else 256 * BigEndian(bs[..|bs| - 1]) + bs[|bs| - 1]
  }

  lemma {:induction false} ValueAppend(a: seq<bool>, b: seq<bool>)
    ensures Value(a + b) == Value(a) * Pow2(|b|) + Value(b)
    decreases |b|
  {
    if b == [] {
      assert a + b == a;
    } else {
      var c, last := b[..|b| - 1], b[|b| - 1];
      assert (a + b)[..|a + b| - 1] == a + c;
      ValueAppend(a, c);
      Doubled(Value(a), Pow2(|c|), Value(c), Digit(last));
    }
  }

  lemma Doubled(v: nat, p: nat, w: nat, d: nat)
    ensures 2 * (v * p + w) + d == v * (2 * p) + (2 * w + d)
  {
  }

  lemma ByteField(p: seq<Byte>, i: nat)
    requires i < |p|
    ensures Field(p, 8 * i, 8) == Spell(p[i], 8)
  {
    hide TestBit, Spell;
    forall k | 0 <= k < 8 ensures Field(p, 8 * i, 8)[k] == Spell(p[i], 8)[k] {
      SpellDigit(p[i], 8, k);
      assert (8 * i + k) / 8 == i && (8 * i + k) % 8 == k;
    }
  }

  lemma FieldSplit(p: seq<Byte>, offset: nat, a: nat, b: nat)
    ensures Field(p, offset, a + b) == Field(p, offset, a) + Field(p, offset + a, b)
  {
    hide BitAt;
  }

  /** A field of whole bytes is the number these bytes spell, most significant first. */
  lemma {:induction false} BytesAreBigEndian(p: seq<Byte>, i: nat, n: nat)
    requires i + n <= |p|
    ensures Value(Field(p, 8 * i, 8 * n)) == BigEndian(p[i..i + n])
    decreases n
  {
    hide Field, Value, Spell, Pow2;
    if n > 0 {
      var bs, last := p[i..i + n], p[i + n - 1];
      assert bs[..n - 1] == p[i..i + n - 1] && bs[n - 1] == last;
      FieldSplit(p, 8 * i, 8 * (n - 1), 8);
      ByteField(p, i + n - 1);
      BytesAreBigEndian(p, i, n - 1);
      ValueAppend(Field(p, 8 * i, 8 * (n - 1)), Spell(last, 8));
      Pow2Of8();
      ValueSpell(last, 8);
    } else {
      assert p[i..i] == [];
      NoField(p, 8 * i);
    }
  }

  lemma NoField(p: seq<Byte>, offset: nat)
    ensures Value(Field(p, offset, 0)) == 0
  {
  }

  lemma FirstDigit(bs: seq<bool>)
    requires bs != []
    ensures Value(bs) == Digit(bs[0]) * Pow2(|bs| - 1) + Value(bs[1..]) && (bs[0] <==> Value(bs) >= Pow2(|bs| - 1))
  {
    hide Pow2, Value;
    assert bs == [bs[0]] + bs[1..];
    ValueAppend([bs[0]], bs[1..]);
    OneBit(bs[0]);
  }

  lemma WrappedSigned(v: nat, bits: nat)
    requires bits >= 1 && v < Pow2(bits)
    ensures Wrapped(v, true, bits) == v - if v >= Pow2(bits - 1) then Pow2(bits) else 0
  {
    hide Pow2;
    var half := Pow2(bits - 1);
    Pow2Next(bits - 1);
    if v >= half { ModIs(v + half, 2 * half, 1, v - half); } else { ModIs(v + half, 2 * half, 0, v + half); }
  }

  /** A signed field whose first bit is set is negative, in two's complement. */
  lemma SignBit(p: seq<Byte>, bits: nat, offset: nat)
    requires bits >= 1
    ensures ReadInt(p, true, bits, offset) ==
            ReadInt(p, false, bits, offset) - if BitAt(p, offset) then Pow2(bits) else 0
  {
    hide BitAt, Pow2, Value, Wrapped;
    UnsignedRead(p, bits, offset);
    FirstDigit(Field(p, offset, bits));
    WrappedSigned(Value(Field(p, offset, bits)), bits);
  }

  lemma OneBit(b: bool)
    ensures Value([b]) == Digit(b)
  {
    assert [b][..0] == [];
  }

  lemma UnsignedRead(p: seq<Byte>, bits: nat, offset: nat)
    requires bits >= 1
    ensures ReadInt(p, false, bits, offset) == Value(Field(p, offset, bits))
  {
    hide Value, Field, Wrapped, Pow2;
    WrappedInRange(Value(Field(p, offset, bits)), false, bits);
  }

  method GetSignedBitfield(p: array<Byte>, offset: nat, bits: nat) returns (value: int)
    requires offset + bits <= 8 * p.Length && 1 <= bits <= 64
    ensures value == ReadInt(p[..], true, bits, offset)
  {
    hide Pow2, ToU64;
    var u := GetUnsignedBitfield(p, offset, bits);
    value := SignExtend(u, bits);
    Pow2Values();
    Pow2Grows(bits, 64);
    Conversions(u);
    SignExtendIs(u, bits);
  }

  /** What was written is read back, modulo the width. */
  lemma WriteRead(p: seq<Byte>, sign: bool, bits: nat, offset: nat, v: int)
    requires 1 <= bits <= 64 && offset + bits <= 8 * |p|
    ensures ReadInt(Write(p, offset, Spell(ToU64(v), bits)), sign, bits, offset) == Wrapped(v, sign, bits)
  {
    hide BitAt, Write, Spell, Value, ToU64, Pow2, Wrapped;
    var bs := Spell(ToU64(v), bits);
    var q := Write(p, offset, bs);
    forall j | 0 <= j < bits ensures Field(q, offset, bits)[j] == bs[j] { WriteBit(p, offset, bs, offset + j); }
    assert Field(q, offset, bits) == bs;
    ValueSpell(ToU64(v), bits);
    ModMod(v, bits);
    WrappedMod(v, sign, bits);
  }

  lemma WrappedMod(v: int, sign: bool, bits: nat)
    requires 1 <= bits <= 64
    ensures Wrapped(v % Pow2(bits), sign, bits) == Wrapped(v, sign, bits)
  {
    hide Pow2;
    ModFirst(v, Lowest(sign, bits), Pow2(bits));
  }

  /** Fields that do not overlap do not notice the write. */
  lemma WriteElsewhere(p: seq<Byte>, offset: nat, bs: seq<bool>, at: nat, n: nat)
    requires offset + |bs| <= 8 * |p| && (at + n <= offset || offset + |bs| <= at)
    ensures Field(Write(p, offset, bs), at, n) == Field(p, at, n)
  {
    hide TestBit, Write;
    var q := Write(p, offset, bs);
    forall j | 0 <= j < n ensures Field(q, at, n)[j] == Field(p, at, n)[j] {
      if at + j < 8 * |p| { WriteBit(p, offset, bs, at + j); }
    }
  }

  function Grown(p: seq<Byte>, n: nat): (q: seq<Byte>)
    ensures |q| >= n && |q| >= |p|
  {
    if |p| >= n then p else p + seq(n - |p|, _ => 0)
  }

  /** Growing a string with zeros changes no field. */
  lemma GrownField(p: seq<Byte>, n: nat, offset: nat, bits: nat)
    ensures Field(Grown(p, n), offset, bits) == Field(p, offset, bits)
  {
    hide TestBit;
    forall j | 0 <= j < bits ensures Field(Grown(p, n), offset, bits)[j] == Field(p, offset, bits)[j] {
      ZeroBits(7 - (offset + j) % 8);
    }
  }

  // ------------------------------------------------------------- the command

  datatype OpKind = Get | Set | IncrBy
  datatype Op = Op(kind: OpKind, sign: bool, bits: nat, offset: nat, arg: int, ow: Overflow)

  /** u1 to u63, i1 to i64, and a 64-bit argument. */
  predicate GoodOp(op: Op) {
    1 <= op.bits <= (if op.sign then 64 else 63) && IsI64(op.arg)
  }

  function SetValue(op: Op): Option<int>
    requires GoodOp(op)
  {
    if op.sign then SetSigned(op.arg, op.bits, op.ow) else SetUnsigned(op.arg, op.bits, op.ow)
  }

  /** The integer the operation stores, if it stores one. */
  function NewValue(p: seq<Byte>, op: Op): Option<int>
    requires GoodOp(op)
  {
    if op.kind.IncrBy? then Fit(ReadInt(p, op.sign, op.bits, op.offset) + op.arg, op.sign, op.bits, op.ow)
    else SetValue(op)
  }

  /** One operation: the string after it, and the reply, which is null when FAIL stops a write. */
  function Exec(p: seq<Byte>, op: Op): (r: (seq<Byte>, Option<int>))
    requires GoodOp(op)
    ensures |r.0| == |p|
  {
    var before := ReadInt(p, op.sign, op.bits, op.offset);
    if op.kind.Get? then (p, Some(before))
    else match NewValue(p, op)
      case None => (p, None)
      case Some(v) => (Write(p, op.offset, Spell(ToU64(v), op.bits)), Some(if op.kind.IncrBy? then v else before))
  }

  function ExecAll(p: seq<Byte>, ops: seq<Op>): (r: (seq<Byte>, seq<Option<int>>))
    requires forall i | 0 <= i < |ops| :: GoodOp(ops[i])
    ensures |r.0| == |p|
    decreases |ops|
  {
    if ops == [] then (p, [])
    else
      var e := Exec(p, ops[0]);
      var rest := ExecAll(e.0, ops[1..]);
      (rest.0, [e.1] + rest.1)
  }

  lemma SetInRange(op: Op)
    requires GoodOp(op) && SetValue(op).Some?
    ensures InRange(SetValue(op).value, op.sign, op.bits)
  {
    hide Pow2, ToU64, Wrapped, SetSigned, SetUnsigned;
    Sizes(op.bits);
    if op.sign { SetSignedExact(op.arg, op.bits, op.ow); } else { SetUnsignedExact(op.arg, op.bits, op.ow); }
  }

  lemma NewInRange(p: seq<Byte>, op: Op)
    requires GoodOp(op) && !op.kind.Get? && NewValue(p, op).Some?
    ensures InRange(NewValue(p, op).value, op.sign, op.bits)
  {
    hide Pow2, ReadInt, Wrapped, SetValue;
    Sizes(op.bits);
    if op.kind.Set? { SetInRange(op); }
  }

  /** What an operation stores is what a later GET of the field replies; FAIL leaves the string as it was. */
  lemma StoredIsRead(p: seq<Byte>, op: Op)
    requires GoodOp(op) && !op.kind.Get? && op.offset + op.bits <= 8 * |p|
    ensures match NewValue(p, op)
            case None => Exec(p, op) == (p, None)
            case Some(v) => ReadInt(Exec(p, op).0, op.sign, op.bits, op.offset) == v
  {
    hide Pow2, ReadInt, Write, Spell, NewValue, Wrapped;
    var v := NewValue(p, op);
    if v.Some? {
      NewInRange(p, op);
      WriteRead(p, op.sign, op.bits, op.offset, v.value);
      WrappedInRange(v.value, op.sign, op.bits);
    }
  }

  /** An operation leaves every field alone that does not overlap its own. */
  lemma OthersKept(p: seq<Byte>, op: Op, sign: bool, bits: nat, offset: nat)
    requires GoodOp(op) && op.offset + op.bits <= 8 * |p| && bits >= 1
    requires offset + bits <= op.offset || op.offset + op.bits <= offset
    ensures ReadInt(Exec(p, op).0, sign, bits, offset) == ReadInt(p, sign, bits, offset)
  {
    hide Write, Spell, NewValue, Wrapped, Value;
    var v := NewValue(p, op);
    if !op.kind.Get? && v.Some? { WriteElsewhere(p, op.offset, Spell(ToU64(v.value), op.bits), offset, bits); }
  }

  /** SET replies what a GET just before it would, INCRBY what a GET just after it would; the reply is null
      exactly when FAIL stops a value outside the field's range. */
  lemma Replies(p: seq<Byte>, op: Op)
    requires GoodOp(op) && op.offset + op.bits <= 8 * |p|
    ensures var get, r := op.(kind := Get), Exec(p, op);
            && (r.1.None? <==> !op.kind.Get? && op.ow.Fail? && !InRange(Intended(p, op), op.sign, op.bits))
            && (r.1.Some? && !op.kind.IncrBy? ==> r.1 == Exec(p, get).1)
            && (r.1.Some? && op.kind.IncrBy? ==> r.1 == Exec(r.0, get).1)
  {
    hide Pow2, ReadInt, Write, Spell, Wrapped, SetSigned, SetUnsigned, InRange;
    if !op.kind.Get? {
      StoredIsRead(p, op);
      Sizes(op.bits);
      if op.kind.Set? {
        if op.sign { SetSignedExact(op.arg, op.bits, op.ow); } else { SetUnsignedExact(op.arg, op.bits, op.ow); }
      }
    }
  }

  /** The value an operation would store if every integer fitted. */
  function Intended(p: seq<Byte>, op: Op): int
    requires GoodOp(op)
  {
    if op.kind.IncrBy? then ReadInt(p, op.sign, op.bits, op.offset) + op.arg else op.arg
  }

  /** Operations run one after another, each on the string the ones before it left. */
  lemma {:induction false} ExecAppend(p: seq<Byte>, a: seq<Op>, b: seq<Op>)
    requires forall i | 0 <= i < |a| :: GoodOp(a[i])
    requires forall i | 0 <= i < |b| :: GoodOp(b[i])
    ensures var x := ExecAll(p, a);
            var y := ExecAll(x.0, b);
            ExecAll(p, a + b) == (y.0, x.1 + y.1)
    decreases |a|
  {
    hide Exec, GoodOp;
    if a == [] {
      assert a + b == b;
      var y := ExecAll(p, b);
      assert [] + y.1 == y.1;
    } else {
      assert (a + b)[1..] == a[1..] + b && (a + b)[0] == a[0];
      var e := Exec(p, a[0]);
      ExecAppend(e.0, a[1..], b);
      var x := ExecAll(e.0, a[1..]);
      var y := ExecAll(x.0, b);
      assert [e.1] + (x.1 + y.1) == [e.1] + x.1 + y.1;
    }
  }

  /** In one command, a GET after a write of the same field replies what was stored, whatever writes to
      other fields stand between them. */
  lemma WrittenThenRead(p: seq<Byte>, op: Op, between: seq<Op>)
    requires GoodOp(op) && !op.kind.Get? && op.offset + op.bits <= 8 * |p| && NewValue(p, op).Some?
    requires forall i | 0 <= i < |between| ::
               && GoodOp(between[i]) && between[i].offset + between[i].bits <= 8 * |p|
               && (op.offset + op.bits <= between[i].offset || between[i].offset + between[i].bits <= op.offset)
    ensures var r := ExecAll(p, [op] + between + [op.(kind := Get)]);
            |r.1| == |between| + 2 && r.1[|between| + 1] == NewValue(p, op)
  {
    hide Exec, NewValue;
    var get, q := op.(kind := Get), Exec(p, op).0;
    StoredIsRead(p, op);
    OneOp(p, op);
    ExecAppend(p, [op], between);
    Between(q, between, op);
    ExecAppend(p, [op] + between, [get]);
    var x := ExecAll(p, [op] + between);
    OneOp(x.0, get);
    GetReplies(x.0, get);
  }

  lemma OneOp(p: seq<Byte>, op: Op)
    requires GoodOp(op)
    ensures ExecAll(p, [op]) == (Exec(p, op).0, [Exec(p, op).1])
  {
    hide Exec;
    var rest: seq<Op> := [op][1..];
    assert rest == [] && ExecAll(Exec(p, op).0, rest) == (Exec(p, op).0, []);
    assert [Exec(p, op).1] + [] == [Exec(p, op).1];
  }

  lemma GetReplies(p: seq<Byte>, op: Op)
    requires GoodOp(op) && op.kind.Get?
    ensures Exec(p, op) == (p, Some(ReadInt(p, op.sign, op.bits, op.offset)))
  {
  }

  lemma {:induction false} Between(p: seq<Byte>, ops: seq<Op>, op: Op)
    requires GoodOp(op) && forall i | 0 <= i < |ops| ::
               && GoodOp(ops[i]) && ops[i].offset + ops[i].bits <= 8 * |p|
               && (op.offset + op.bits <= ops[i].offset || ops[i].offset + ops[i].bits <= op.offset)
    ensures var r := ExecAll(p, ops);
            |r.1| == |ops| && ReadInt(r.0, op.sign, op.bits, op.offset) == ReadInt(p, op.sign, op.bits, op.offset)
    decreases |ops|
  {
    hide Exec, ReadInt;
    if ops != [] {
      OthersKept(p, ops[0], op.sign, op.bits, op.offset);
      Between(Exec(p, ops[0]).0, ops[1..], op);
    }
  }

  /** Bits up to and including the highest one written. */
  function WriteEnd(ops: seq<Op>): nat
    decreases |ops|
  {
    if ops == [] then 0
    else
      var rest := WriteEnd(ops[1..]);
      if ops[0].kind.Get? || ops[0].offset + ops[0].bits <= rest then rest else ops[0].offset + ops[0].bits
  }

  predicate ReadOnly(ops: seq<Op>) {
    forall i | 0 <= i < |ops| :: ops[i].kind.Get?
  }

  /** A command that writes first makes room for its highest bit. */
  function Prepared(p: seq<Byte>, ops: seq<Op>): seq<Byte> {
    if ReadOnly(ops) || WriteEnd(ops) == 0 then p else Grown(p, (WriteEnd(ops) - 1) / 8 + 1)
  }

  lemma {:induction false} Inside(ops: seq<Op>, i: nat)
    requires i < |ops| && !ops[i].kind.Get?
    ensures ops[i].offset + ops[i].bits <= WriteEnd(ops)
    decreases |ops|
  {
    if i > 0 { Inside(ops[1..], i - 1); }
  }

  lemma PreparedInside(p: seq<Byte>, ops: seq<Op>, i: nat)
    requires i < |ops| && !ops[i].kind.Get? && GoodOp(ops[i])
    ensures ops[i].offset + ops[i].bits <= 8 * |Prepared(p, ops)|
  {
    Inside(ops, i);
  }

  lemma {:induction false} Attained(ops: seq<Op>)
    ensures WriteEnd(ops) == 0 ||
            exists i | 0 <= i < |ops| :: !ops[i].kind.Get? && ops[i].offset + ops[i].bits == WriteEnd(ops)
    decreases |ops|
  {
    if ops != [] {
      var rest := ops[1..];
      Attained(rest);
      if i :| 0 <= i < |rest| && !rest[i].kind.Get? && rest[i].offset + rest[i].bits == WriteEnd(rest) {
        assert ops[i + 1] == rest[i];
      }
    }
  }

  /** No more room than needed: a string that grew ends with a byte that is written to. */
  lemma NoMoreRoom(p: seq<Byte>, ops: seq<Op>)
    requires |Prepared(p, ops)| > |p|
    ensures exists i | 0 <= i < |ops| :: !ops[i].kind.Get? && ops[i].offset + ops[i].bits > 8 * (|Prepared(p, ops)| - 1)
  {
    Attained(ops);
  }

  class StringObject {
    var data: array<Byte>

    constructor (d: array<Byte>)
      ensures data == d
    {
      data := d;
    }

    /** sdsgrowzero */
    method Grow(n: nat)
      modifies this
      ensures data[..] == Grown(old(data[..]), n) && (data == old(data) || fresh(data))
    {
      if data.Length < n {
        var d := new Byte[n](_ => 0);
        for i := 0 to data.Length
          invariant data == old(data) && data[..] == old(data[..]) && fresh(d) && d.Length == n
          invariant forall k | 0 <= k < n :: d[k] == if k < i then data[k] else 0
        {
          d[i] := data[i];
        }
        data := d;
      }
    }

    /** GET reads through a copy of at most nine bytes, which stands for the zero-extended string. */
    method GetField(sign: bool, bits: nat, offset: nat) returns (value: int)
      requires 1 <= bits <= 64
      ensures value == ReadInt(data[..], sign, bits, offset)
    {
      hide Wrapped, Value, TestBit;
      var buf := new Byte[9](_ => 0);
      var byte := offset / 8;
      var i := 0;
      while i < 9 && i + byte < data.Length
        invariant 0 <= i <= 9 && (i == 0 || i + byte <= data.Length)
        invariant forall k | 0 <= k < 9 :: buf[k] == if k < i then data[k + byte] else 0
      {
        buf[i] := data[i + byte];
        i := i + 1;
      }
      Window(data[..], buf[..], offset, bits);
      if sign {
        value := GetSignedBitfield(buf, offset - byte * 8, bits);
      } else {
        value := GetUnsignedBitfield(buf, offset - byte * 8, bits);
        UnsignedRead(data[..], bits, offset);
      }
    }

    /** SET and INCRBY of a signed field. */
    method StoreSigned(op: Op) returns (reply: Option<int>)
      requires GoodOp(op) && op.sign && !op.kind.Get? && op.offset + op.bits <= 8 * data.Length
      modifies data
      ensures (data[..], reply) == Exec(old(data[..]), op)
    {
      hide Pow2, Wrapped, ToI64, ToU64, CheckSigned, Fit, Write, Spell, Value, Field;
      var before := GetSignedBitfield(data, op.offset, op.bits);
      Sizes(op.bits);
      var code, limit, newval;
      if op.kind.IncrBy? {
        IncrSignedIsFit(before, op.arg, op.bits, op.ow);
        var (c, l) := CheckSigned(before, op.arg, op.bits, op.ow);
        code, limit, newval := c, l, ToI64(before + op.arg);
      } else {
        var (c, l) := CheckSigned(op.arg, 0, op.bits, op.ow);
        code, limit, newval := c, l, op.arg;
      }
      if code != 0 {
        if limit.None? { return None; }
        newval := limit.value;
      }
      SetSignedBitfield(data, op.offset, op.bits, newval);
      return Some(if op.kind.IncrBy? then newval else before);
    }

    /** SET and INCRBY of an unsigned field. */
    method StoreUnsigned(op: Op) returns (reply: Option<int>)
      requires GoodOp(op) && !op.sign && !op.kind.Get? && op.offset + op.bits <= 8 * data.Length
      modifies data
      ensures (data[..], reply) == Exec(old(data[..]), op)
    {
      hide Pow2, Wrapped, ToI64, ToU64, CheckUnsigned, Fit, Write, Spell, Value, Field;
      var before := GetUnsignedBitfield(data, op.offset, op.bits);
      UnsignedRead(data[..], op.bits, op.offset);
      Sizes(op.bits);
      var code, limit, newval: int;
      if op.kind.IncrBy? {
        IncrUnsignedIsFit(before, op.arg, op.bits, op.ow);
        var (c, l) := CheckUnsigned(before, op.arg, op.bits, op.ow);
        code, limit, newval := c, l, ToU64(before + op.arg);
      } else {
        var (c, l) := CheckUnsigned(ToU64(op.arg), 0, op.bits, op.ow);
        code, limit, newval := c, l, ToU64(op.arg);
      }
      if code != 0 {
        if limit.None? { return None; }
        newval := limit.value;
      }
      assert NewValue(data[..], op) == Some(newval);
      NewInRange(data[..], op);
      Conversions(newval);
      SetUnsignedBitfield(data, op.offset, op.bits, newval);
      return Some(if op.kind.IncrBy? then newval else before);
    }

    method Execute(op: Op) returns (reply: Option<int>)
      requires GoodOp(op) && (op.kind.Get? || op.offset + op.bits <= 8 * data.Length)
      modifies data
      ensures (data[..], reply) == Exec(old(data[..]), op)
    {
      if op.kind.Get? {
        var value := GetField(op.sign, op.bits, op.offset);
        reply := Some(value);
      } else if op.sign {
        reply := StoreSigned(op);
      } else {
        reply := StoreUnsigned(op);
      }
    }

    /** Make room up to the highest bit any operation writes. */
    method Prepare(ops: seq<Op>)
      modifies this
      ensures data[..] == Prepared(old(data[..]), ops) && (data == old(data) || fresh(data))
    {
      var end, readonly, j := 0, true, 0;
      assert ops[0..] == ops;
      while j < |ops|
        invariant 0 <= j <= |ops|
        invariant readonly == ReadOnly(ops[..j])
        invariant WriteEnd(ops) == if WriteEnd(ops[j..]) <= end then end else WriteEnd(ops[j..])
        invariant data == old(data) && data[..] == old(data[..])
      {
        assert ops[j..][1..] == ops[j + 1..] && ops[..j + 1] == ops[..j] + [ops[j]];
        if !ops[j].kind.Get? {
          readonly := false;
          if end < ops[j].offset + ops[j].bits { end := ops[j].offset + ops[j].bits; }
        }
        j := j + 1;
      }
      assert ops[..j] == ops && ops[j..] == [];
      if !readonly && end > 0 { Grow((end - 1) / 8 + 1); }
    }

    method ExecuteAll(ops: seq<Op>) returns (replies: seq<Option<int>>)
      requires forall i | 0 <= i < |ops| ::
                 GoodOp(ops[i]) && (ops[i].kind.Get? || ops[i].offset + ops[i].bits <= 8 * data.Length)
      modifies data
      ensures (data[..], replies) == ExecAll(old(data[..]), ops)
    {
      hide Exec, GoodOp;
      var j := 0;
      replies := [];
      assert ops[0..] == ops;
      ghost var all := ExecAll(data[..], ops);
      assert [] + all.1 == all.1;
      while j < |ops|
        invariant 0 <= j <= |ops|
        invariant all == (ExecAll(data[..], ops[j..]).0, replies + ExecAll(data[..], ops[j..]).1)
      {
        assert ops[j..][1..] == ops[j + 1..];
        var reply := Execute(ops[j]);
        ghost var rest := ExecAll(data[..], ops[j + 1..]).1;
        assert replies + ([reply] + rest) == replies + [reply] + rest;
        replies, j := replies + [reply], j + 1;
      }
      assert replies + [] == replies;
    }

    /** BITFIELD on parsed operations: room for all writes first, then one operation after the other. */
    method BitfieldGeneric(ops: seq<Op>) returns (replies: seq<Option<int>>)
      requires forall i | 0 <= i < |ops| :: GoodOp(ops[i])
      modifies this, data
      ensures (data[..], replies) == ExecAll(Prepared(old(data[..]), ops), ops)
    {
      hide Exec, GoodOp, Prepared;
      forall i | 0 <= i < |ops| && !ops[i].kind.Get?
        ensures ops[i].offset + ops[i].bits <= 8 * |Prepared(data[..], ops)|
      {
        PreparedInside(data[..], ops, i);
      }
      Prepare(ops);
      replies := ExecuteAll(ops);
    }
  }

  lemma Window(p: seq<Byte>, buf: seq<Byte>, offset: nat, bits: nat)
    requires |buf| == 9 && bits <= 64
    requires forall k | 0 <= k < 9 :: buf[k] == if k + offset / 8 < |p| then p[k + offset / 8] else 0
    ensures Field(buf, offset - offset / 8 * 8, bits) == Field(p, offset, bits)
  {
    hide TestBit;
    var from := offset - offset / 8 * 8;
    forall j | 0 <= j < bits ensures Field(buf, from, bits)[j] == Field(p, offset, bits)[j] {
      assert (from + j) / 8 + offset / 8 == (offset + j) / 8 && (from + j) % 8 == (offset + j) % 8;
      ZeroBits(7 - (offset + j) % 8);
    }
  }
}
