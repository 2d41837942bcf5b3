/** BITOP: AND, OR, XOR and NOT of strings, four words at a time as long as all strings last. */
module Bitop {
  import opened Wrappers
  import opened Sequences
  import opened Bits
  import opened Popcount

  function ByteOp(op: Operation, a: Byte, b: Byte): Byte {
    Pow2Of8();
    Bitwise(op, a, b, 8)
  }

  function ByteOps(op: Operation, u: seq<Byte>, v: seq<Byte>): (r: seq<Byte>)
    requires |u| == |v|
    ensures |r| == |u| && forall i | 0 <= i < |r| :: r[i] == ByteOp(op, u[i], v[i])
  {
    seq(|u|, i requires 0 <= i < |u| => ByteOp(op, u[i], v[i]))
  }

  /** A word operation is the byte operation on each of its bytes. */
  lemma {:induction false} WordIsBytes(op: Operation, u: seq<Byte>, v: seq<Byte>)
    requires |u| == |v|
    ensures Bitwise(op, Num(u, 256), Num(v, 256), 8 * |u|) == Num(ByteOps(op, u, v), 256)
    decreases |u|
  {
    hide Bitwise, Pow2, Shift;
    Pow2Of8();
    if u != [] {
      WordIsBytes(op, u[1..], v[1..]);
      var x, y := Num(u[1..], 256), Num(v[1..], 256);
      BitwiseSplit(op, u[0], x, v[0], y, 8, 8 * (|u| - 1));
      Shift8(x);
      Shift8(y);
      Shift8(Bitwise(op, x, y, 8 * (|u| - 1)));
      assert ByteOps(op, u, v)[1..] == ByteOps(op, u[1..], v[1..]);
    } else {
      NoDigits(op);
    }
  }

  /** The bytes of a word, as it lies in memory. */
  function Store(w: nat, n: nat): (s: seq<Byte>)
    ensures |s| == n
    decreases n
  {
    if n == 0 then [] else [w % 256] + Store(w / 256, n - 1)
  }

  lemma {:induction false} StoreNum(s: seq<Byte>)
    ensures Store(Num(s, 256), |s|) == s
  {
    if s != [] { StoreNum(s[1..]); }
  }

  /** lres[q] op= lp[i][q] */
  method WordOp(op: Operation, u: seq<Byte>, v: seq<Byte>) returns (r: seq<Byte>)
    requires |u| == |v| == 8
    ensures r == ByteOps(op, u, v)
  {
    hide Bitwise, Num, Store;
    var w := Bitwise(op, Num(u, 256), Num(v, 256), 64);
    r := Store(w, 8);
    WordIsBytes(op, u, v);
    StoreNum(ByteOps(op, u, v));
  }

  // ----------------------------------------------------------------- reference

  /** Byte k of the result, from the first n strings, each followed by zeros. */
  function Folded(op: Operation, src: seq<seq<Byte>>, k: nat, n: nat): Byte
    requires 0 < n <= |src|
    decreases n
  {
    if n == 1 then (if op.Not? then ByteOp(Not, ByteAt(src[0], k), 0) else ByteAt(src[0], k))
    else ByteOp(op, Folded(op, src, k, n - 1), ByteAt(src[n - 1], k))
  }

  function FoldedBit(op: Operation, src: seq<seq<Byte>>, k: nat, n: nat): bool
    requires 0 < n <= |src|
    decreases n
  {
    if n == 1 then (if op.Not? then !BitAt(src[0], k) else BitAt(src[0], k))
    else Combine(op, FoldedBit(op, src, k, n - 1), BitAt(src[n - 1], k))
  }

  /** Bit by bit, the result is the operation on the bits of the sources. */
  lemma {:induction false} FoldedBits(op: Operation, src: seq<seq<Byte>>, k: nat, n: nat)
    requires 0 < n <= |src|
    ensures TestBit(Folded(op, src, k / 8, n), 7 - k % 8) == FoldedBit(op, src, k, n)
    decreases n
  {
    hide TestBit, Bitwise, BitAt;
    BitOfByte(src[n - 1], k);
    if n == 1 {
      if op.Not? { BitwiseBit(Not, ByteAt(src[0], k / 8), 0, 8, 7 - k % 8); }
    } else {
      FoldedBits(op, src, k, n - 1);
      BitwiseBit(op, Folded(op, src, k / 8, n - 1), ByteAt(src[n - 1], k / 8), 8, 7 - k % 8);
    }
  }

  /** Those of the first n strings whose bit k is set. */
  function Setters(src: seq<seq<Byte>>, k: nat, n: nat): set<nat>
    requires n <= |src|
  {
    set i: nat | i < n && BitAt(src[i], k)
  }

  lemma {:induction false} FoldedAll(src: seq<seq<Byte>>, k: nat, n: nat)
    requires 0 < n <= |src|
    ensures FoldedBit(And, src, k, n) <==> forall i | 0 <= i < n :: BitAt(src[i], k)
    ensures FoldedBit(Or, src, k, n) <==> exists i | 0 <= i < n :: BitAt(src[i], k)
    decreases n
  {
    hide BitAt;
    if n > 1 { FoldedAll(src, k, n - 1); }
  }

  lemma {:induction false} FoldedXor(src: seq<seq<Byte>>, k: nat, n: nat)
    requires 0 < n <= |src|
    ensures FoldedBit(Xor, src, k, n) <==> |Setters(src, k, n)| % 2 == 1
    decreases n
  {
    hide BitAt;
    OneMoreSetter(src, k, n);
    if n == 1 { assert Setters(src, k, 0) == {}; } else { FoldedXor(src, k, n - 1); }
  }

  lemma OneMoreSetter(src: seq<seq<Byte>>, k: nat, n: nat)
    requires 0 < n <= |src|
    ensures |Setters(src, k, n)| == |Setters(src, k, n - 1)| + Digit(BitAt(src[n - 1], k))
  {
    hide BitAt;
    var t := Setters(src, k, n - 1);
    assert Setters(src, k, n) == if BitAt(src[n - 1], k) then t + {n - 1} else t;
  }

  /** AND is set where all sources are, OR where some source is, XOR where an odd number of them is, and NOT
      of a single source where it is not. */
  lemma FoldedMeans(op: Operation, src: seq<seq<Byte>>, k: nat, n: nat)
    requires 0 < n <= |src|
    ensures var bit := FoldedBit(op, src, k, n);
            match op
            case And => bit <==> forall i | 0 <= i < n :: BitAt(src[i], k)
            case Or => bit <==> exists i | 0 <= i < n :: BitAt(src[i], k)
            case Xor => bit <==> |Setters(src, k, n)| % 2 == 1
            case Not => n == 1 ==> (bit <==> !BitAt(src[0], k))
  {
    hide BitAt;
    FoldedAll(src, k, n);
    FoldedXor(src, k, n);
  }

  // ---------------------------------------------------------------- the command

  /** A string, or nothing where the key does not exist. */
  function Str(o: Option<seq<Byte>>): seq<Byte> {
    if o.None? then [] else o.value
  }

  function Strs(objects: seq<Option<seq<Byte>>>): (src: seq<seq<Byte>>)
    ensures |src| == |objects| && forall j | 0 <= j < |src| :: src[j] == Str(objects[j])
  {
    seq(|objects|, j requires 0 <= j < |objects| => Str(objects[j]))
  }

  predicate Longest(src: seq<seq<Byte>>, n: nat) {
    (forall j | 0 <= j < |src| :: |src[j]| <= n) && (n == 0 || exists j | 0 <= j < |src| :: |src[j]| == n)
  }

  method Lengths(objects: seq<Option<seq<Byte>>>) returns (minlen: nat, maxlen: nat)
    ensures Longest(Strs(objects), maxlen) && forall j | 0 <= j < |objects| :: minlen <= |Str(objects[j])|
  {
    minlen, maxlen := 0, 0;
    for j := 0 to |objects|
      invariant Longest(Strs(objects)[..j], maxlen) && forall i | 0 <= i < j :: minlen <= |Str(objects[i])|
    {
      ghost var src := Strs(objects);
      assert src[..j + 1] == src[..j] + [src[j]];
      ghost var before := maxlen;
      if objects[j].None? {
        minlen := 0;
      } else {
        var len := |objects[j].value|;
        if len > maxlen { maxlen := len; }
        if j == 0 || len < minlen { minlen := len; }
      }
      LongestNext(src, j, before, maxlen);
    }
    assert Strs(objects)[..|objects|] == Strs(objects);
  }

  lemma LongestNext(src: seq<seq<Byte>>, j: nat, n: nat, m: nat)
    requires j < |src| && Longest(src[..j], n) && m == if |src[j]| > n then |src[j]| else n
    ensures Longest(src[..j + 1], m)
  {
    var next := src[..j + 1];
    assert next[j] == src[j] && forall i | 0 <= i < j :: next[i] == src[..j][i];
    if m == n && n > 0 {
      var i :| 0 <= i < j && |src[..j][i]| == n;
      assert |next[i]| == m;
    }
  }

  /** Word q of the block at j, for one more source. */
  method BlockWord(op: Operation, res: array<Byte>, s: seq<Byte>, k: nat)
    requires k + 8 <= res.Length && k + 8 <= |s|
    modifies res
    ensures forall x | 0 <= x < res.Length ::
              res[x] == if k <= x < k + 8 then ByteOp(op, old(res[x]), s[x]) else old(res[x])
  {
    hide ByteOp;
    var w := WordOp(op, res[k..k + 8], s[k..k + 8]);
    for x := 0 to 8
      invariant forall y | 0 <= y < res.Length ::
                  res[y] == if k <= y < k + x then ByteOp(op, old(res[y]), s[y]) else old(res[y])
    {
      res[k + x] := w[x];
    }
  }

  /** Four words of one more source. */
  method Block(op: Operation, res: array<Byte>, s: seq<Byte>, j: nat)
    requires j + 32 <= res.Length && j + 32 <= |s|
    modifies res
    ensures forall x | 0 <= x < res.Length ::
              res[x] == if j <= x < j + 32 then ByteOp(op, old(res[x]), s[x]) else old(res[x])
  {
    hide ByteOp;
    for q := 0 to 4
      invariant forall x | 0 <= x < res.Length ::
                  res[x] == if j <= x < j + 8 * q then ByteOp(op, old(res[x]), s[x]) else old(res[x])
    {
      BlockWord(op, res, s, j + 8 * q);
    }
  }

  /** Four words of the result, from all sources. */
  method FastBlock(op: Operation, res: array<Byte>, src: seq<seq<Byte>>, j: nat)
    requires src != [] && (op.Not? ==> |src| == 1) && j + 32 <= res.Length
    requires forall i | 0 <= i < |src| :: j + 32 <= |src[i]|
    requires forall x | j <= x < j + 32 :: res[x] == src[0][x]
    modifies res
    ensures forall x | 0 <= x < res.Length ::
              res[x] == if j <= x < j + 32 then Folded(op, src, x, |src|) else old(res[x])
  {
    hide ByteOp;
    if op.Not? {
      var zeros := seq(j + 32, _ => 0);
      Block(Not, res, zeros, j);
    } else {
      var i := 1;
      while i < |src|
        invariant 1 <= i <= |src|
        invariant forall x | 0 <= x < res.Length ::
                    res[x] == if j <= x < j + 32 then Folded(op, src, x, i) else old(res[x])
      {
        Block(op, res, src[i], j);
        i := i + 1;
      }
    }
  }

  method SlowByte(op: Operation, src: seq<seq<Byte>>, j: nat) returns (output: Byte)
    requires src != [] && (op.Not? ==> |src| == 1)
    ensures output == Folded(op, src, j, |src|)
  {
    hide ByteOp;
    output := if |src[0]| <= j then 0 else src[0][j];
    if op.Not? { output := ByteOp(Not, output, 0); }
    var i := 1;
    while i < |src|
      invariant 1 <= i <= |src| && output == Folded(op, src, j, i)
    {
      var byte := if |src[i]| <= j then 0 else src[i][j];
      output := ByteOp(op, output, byte);
      i := i + 1;
    }
  }

  /** As many blocks as the shortest source allows; j is the first byte not done. */
  method FastPath(op: Operation, res: array<Byte>, src: seq<seq<Byte>>, minlen: nat) returns (j: nat)
    requires src != [] && (op.Not? ==> |src| == 1) && minlen <= res.Length
    requires forall i | 0 <= i < |src| :: minlen <= |src[i]|
    modifies res
    ensures j <= res.Length && forall x | 0 <= x < j :: res[x] == Folded(op, src, x, |src|)
  {
    hide Folded;
    j := 0;
    if minlen < 32 || |src| > 16 { return; }
    for x := 0 to minlen
      invariant forall y | 0 <= y < x :: res[y] == src[0][y]
    {
      res[x] := src[0][x];
    }
    while minlen - j >= 32
      invariant j <= minlen
      invariant forall x | 0 <= x < j :: res[x] == Folded(op, src, x, |src|)
      invariant forall x | j <= x < minlen :: res[x] == src[0][x]
      decreases minlen - j
    {
      FastBlock(op, res, src, j);
      j := j + 32;
    }
  }

  /** The result has the length of the longest source and the combined bits of all of them. */
  method BitopCommand(op: Operation, objects: seq<Option<seq<Byte>>>) returns (res: array<Byte>)
    requires objects != [] && (op.Not? ==> |objects| == 1)
    ensures Longest(Strs(objects), res.Length)
    ensures forall k: nat | k < 8 * res.Length :: BitAt(res[..], k) == FoldedBit(op, Strs(objects), k, |objects|)
  {
    hide Folded, FoldedBit, TestBit;
    var minlen, maxlen := Lengths(objects);
    var src := Strs(objects);
    res := new Byte[maxlen](_ => 0);
    assert minlen <= |src[0]| <= maxlen;
    var j := FastPath(op, res, src, minlen);
    while j < maxlen
      invariant j <= maxlen
      invariant forall x | 0 <= x < j :: res[x] == Folded(op, src, x, |src|)
    {
      res[j] := SlowByte(op, src, j);
      j := j + 1;
    }
    forall k: nat | k < 8 * maxlen ensures BitAt(res[..], k) == FoldedBit(op, src, k, |src|) {
      FoldedBits(op, src, k, |src|);
    }
  }
}
