/** Decimal numbers as the server prints and parses them. */
module Decimal {

  predicate IsDigit(c: char) {
    '0' <= c <= '9'
  }

  function DigitChar(d: nat): char
    requires d < 10
  {
    '0' + d as char
  }

  function DigitValue(c: char): (d: nat)
    requires IsDigit(c)
    ensures d < 10
  {
    (c as int) - ('0' as int)
  }

  predicate AllDigits(s: string) {
    forall i | 0 <= i < |s| :: IsDigit(s[i])
  }

  /** ll2string on a non-negative number. */
  function Dec(n: nat): (s: string)
    ensures |s| >= 1 && AllDigits(s) && (n > 0 ==> s[0] != '0')
  {
    if n < 10 then [DigitChar(n)] else Dec(n / 10) + [DigitChar(n % 10)]
  }

  /** atoi and strtol: blanks, a sign, then digits up to the first other character. */
  function Atoi(s: string): int {
    if s == [] then 0
    else if s[0] in " \t\n\r" then Atoi(s[1..])
    else if s[0] == '-' then -(Digits(s[1..], 0) as int)
    else if s[0] == '+' then Digits(s[1..], 0)
    else Digits(s, 0)
  }

  function Digits(s: string, acc: nat): (n: nat)
    ensures n >= acc
  {
    if s == [] || !IsDigit(s[0]) then acc else Digits(s[1..], acc * 10 + DigitValue(s[0]))
  }

  lemma {:induction false} DigitsAppend(a: string, b: string, acc: nat)
    requires AllDigits(a)
    ensures Digits(a + b, acc) == Digits(b, Digits(a, acc))
  {
    if a == [] {
      assert a + b == b;
    } else {
      assert (a + b)[1..] == a[1..] + b;
      DigitsAppend(a[1..], b, acc * 10 + DigitValue(a[0]));
    }
  }

  lemma {:induction false} DigitsOfDec(n: nat)
    ensures Digits(Dec(n), 0) == n
  {
    if n < 10 {
      assert DigitValue(DigitChar(n)) == n;
      assert [DigitChar(n)][1..] == [];
    } else {
      DigitsOfDec(n / 10);
      DigitsAppend(Dec(n / 10), [DigitChar(n % 10)], 0);
      assert [DigitChar(n % 10)][1..] == [];
      assert DigitValue(DigitChar(n % 10)) == n % 10;
    }
  }

  /** Parsing what was printed gives the number back, whatever non-digit follows. */
  lemma AtoiOfDec(n: nat, rest: string)
    requires rest == [] || !IsDigit(rest[0])
    ensures Atoi(Dec(n) + rest) == n
  {
    DigitsOfDec(n);
    DigitsAppend(Dec(n), rest, 0);
  }

  /** A truncated number is still read as some positive number if one was printed. */
  lemma AtoiOfPrefix(n: nat, k: nat, rest: string)
    requires k <= |Dec(n)| && (rest == [] || (k == |Dec(n)| && !IsDigit(rest[0]) && rest[0] !in " \t\n"))
    ensures Atoi(Dec(n)[..k] + rest) >= 0
    ensures n > 0 && k > 0 ==> Atoi(Dec(n)[..k] + rest) >= 1
  {
    var s := Dec(n)[..k] + rest;
    if k > 0 {
      assert s[0] == Dec(n)[0];
      assert Digits(s, 0) == Digits(s[1..], DigitValue(s[0]));
    }
  }

  function Pow10(k: nat): nat {
    if k == 0 then 1 else 10 * Pow10(k - 1)
  }

  lemma {:induction false} DecLength(n: nat, k: nat)
    requires 0 < k && n < Pow10(k)
    ensures |Dec(n)| <= k
  {
    if n >= 10 {
      assert k > 1 by { assert Pow10(1) == 10; }
      DecLength(n / 10, k - 1);
    }
  }

  const LONG_MAX: nat := 0x7fff_ffff_ffff_ffff

  lemma LongFits(n: nat)
    requires n <= LONG_MAX
    ensures |Dec(n)| <= 19
  {
    assert Pow10(4) == 10000;
    assert Pow10(8) == 10000 * 10000;
    assert Pow10(12) == 10000 * Pow10(8);
    assert Pow10(16) == 10000 * Pow10(12);
    assert Pow10(19) == 1000 * Pow10(16);
    DecLength(n, 19);
  }
}

/** Commands as they stand in the append only file, and how the loader reads them back.
    Byte strings are strings; reading functions take the unread rest of the file. */
module Resp {
  import opened Decimal

  type Command = seq<string>

  const CRLF: string := "\r\n"
  const BUF: nat := 128

  /** One bulk string. */
  function Bulk(a: string): string {
    "$" + Dec(|a|) + CRLF + a + CRLF
  }

  function Bulks(args: seq<string>): string {
    if args == [] then "" else Bulk(args[0]) + Bulks(args[1..])
  }

  /** catAppendOnlyGenericCommand */
  function Encode(c: Command): string {
    "*" + Dec(|c|) + CRLF + Bulks(c)
  }

  function EncodeAll(cs: seq<Command>): string {
    if cs == [] then "" else Encode(cs[0]) + EncodeAll(cs[1..])
  }

  /** What the printer is given: at least a name, and lengths that fit the C types. */
  predicate Printable(c: Command) {
    1 <= |c| <= LONG_MAX && forall i | 0 <= i < |c| :: |c[i]| <= LONG_MAX
  }

  method CatGenericCommand(dst: string, argv: Command) returns (r: string)
    ensures r == dst + Encode(argv)
  {
    r := dst + ("*" + Dec(|argv|) + CRLF);
    var j := 0;
    while j < |argv|
      invariant 0 <= j <= |argv|
      invariant r + Bulks(argv[j..]) == dst + Encode(argv)
    {
      ghost var tail := Bulks(argv[j + 1..]);
      assert argv[j..][1..] == argv[j + 1..];
      assert r + (Bulk(argv[j]) + tail) == (r + Bulk(argv[j])) + tail;
      r := r + ("$" + Dec(|argv[j]|) + CRLF + argv[j] + CRLF);
      j := j + 1;
    }
    assert argv[j..] == [] && r + "" == r;
  }

  // ----------------------------------------------------------------- reading

  /** Index of the end of the first line of s: past its newline, or its length. */
  function LineEnd(s: string): (n: nat)
    ensures n <= |s| && (s != [] ==> n > 0)
  {
    if s == [] then 0 else if s[0] == '\n' then 1 else 1 + LineEnd(s[1..])
  }

  /** fgets: at most BUF - 1 characters, up to and including a newline. */
  function Fgets(s: string): (l: string)
    ensures |l| <= |s| && l == s[..|l|] && (s != [] ==> l != [])
  {
    s[..if LineEnd(s) < BUF - 1 then LineEnd(s) else BUF - 1]
  }

  datatype Read = Parsed(argv: Command, used: nat) | AtEof | ShortRead | BadFormat

  function ReadBulk(s: string): (r: Read)
    ensures r.Parsed? ==> |r.argv| == 1 && 0 < r.used <= |s|
    ensures !r.AtEof?
  {
    if s == [] then ShortRead
    else
      var line := Fgets(s);
      if line[0] != '$' then BadFormat
      else
        var len := Atoi(line[1..]);
        if len < 0 then BadFormat
        else if |line| + len > |s| || |line| + len + 2 > |s| then ShortRead
        else Parsed([s[|line|..|line| + len]], |line| + len + 2)
  }

  function ReadBulks(s: string, n: nat): (r: Read)
    ensures r.Parsed? ==> |r.argv| == n && r.used <= |s|
    ensures !r.AtEof?
  {
    if n == 0 then Parsed([], 0)
    else
      var first := ReadBulk(s);
      if !first.Parsed? then first
      else
        var rest := ReadBulks(s[first.used..], n - 1);
        if !rest.Parsed? then rest else Parsed(first.argv + rest.argv, first.used + rest.used)
  }

  /** One command of the file. */
  function ReadCommand(s: string): (r: Read)
    ensures r.Parsed? ==> |r.argv| >= 1 && 0 < r.used <= |s|
    ensures r.AtEof? <==> s == []
  {
    if s == [] then AtEof
    else
      var line := Fgets(s);
      if line[0] != '*' then BadFormat
      else if |line| == 1 then ShortRead
      else
        var argc := Atoi(line[1..]);
        if argc < 1 then BadFormat
        else
          var args := ReadBulks(s[|line|..], argc);
          if args.Parsed? then Parsed(args.argv, |line| + args.used) else args
  }

  lemma {:induction false} LineEndOf(head: string, rest: string)
    requires head != [] && head[|head| - 1] == '\n' && forall i | 0 <= i < |head| - 1 :: head[i] != '\n'
    ensures LineEnd(head + rest) == |head|
  {
    if |head| > 1 {
      assert (head + rest)[1..] == head[1..] + rest;
      LineEndOf(head[1..], rest);
    }
  }

  lemma {:induction false} NoLineEnd(s: string)
    requires forall i | 0 <= i < |s| :: s[i] != '\n'
    ensures LineEnd(s) == |s|
  {
    if s != [] { NoLineEnd(s[1..]); }
  }

  /** A header line: a marker, a number and the end of line. */
  function Head(mark: char, n: nat): string {
    [mark] + Dec(n) + CRLF
  }

  lemma FgetsHead(mark: char, n: nat, rest: string)
    requires n <= LONG_MAX && mark != '\n'
    ensures Fgets(Head(mark, n) + rest) == Head(mark, n)
    ensures Atoi(Head(mark, n)[1..]) == n
  {
    LongFits(n);
    var h := Head(mark, n);
    forall i | 0 <= i < |h| - 1 ensures h[i] != '\n' {
      if 1 <= i <= |Dec(n)| { assert h[i] == Dec(n)[i - 1]; }
    }
    LineEndOf(h, rest);
    assert h[1..] == Dec(n) + CRLF;
    AtoiOfDec(n, CRLF);
  }

  /** A header line cut short is read whole, up to the end of the file. */
  lemma FgetsCutHead(mark: char, n: nat, k: nat)
    requires n <= LONG_MAX && mark != '\n' && 0 < k < |Head(mark, n)|
    ensures Fgets(Head(mark, n)[..k]) == Head(mark, n)[..k]
    ensures Atoi(Head(mark, n)[..k][1..]) >= 0
    ensures n > 0 && k > 1 ==> Atoi(Head(mark, n)[..k][1..]) >= 1
  {
    LongFits(n);
    var h := Head(mark, n);
    forall i | 0 <= i < k ensures h[..k][i] != '\n' {
      if 1 <= i <= |Dec(n)| { assert h[i] == Dec(n)[i - 1]; }
    }
    NoLineEnd(h[..k]);
    if k <= |Dec(n)| + 1 {
      assert h[..k][1..] == Dec(n)[..k - 1] + "";
      AtoiOfPrefix(n, k - 1, "");
    } else {
      assert h[..k][1..] == Dec(n)[..|Dec(n)|] + "\r";
      AtoiOfPrefix(n, |Dec(n)|, "\r");
    }
  }

  lemma BulkShape(a: string)
    ensures Bulk(a) == Head('$', |a|) + a + CRLF
    ensures |Bulk(a)| == |Head('$', |a|)| + |a| + 2
  {
  }

  lemma ReadBulkWhole(a: string, rest: string)
    requires |a| <= LONG_MAX
    ensures ReadBulk(Bulk(a) + rest) == Parsed([a], |Bulk(a)|)
  {
    BulkShape(a);
    var h := Head('$', |a|);
    assert Bulk(a) + rest == h + (a + CRLF + rest);
    FgetsHead('$', |a|, a + CRLF + rest);
    assert (Bulk(a) + rest)[|h|..|h| + |a|] == a;
  }

  lemma ReadBulkCut(a: string, k: nat)
    requires |a| <= LONG_MAX && k < |Bulk(a)|
    ensures ReadBulk(Bulk(a)[..k]) == ShortRead
  {
    BulkShape(a);
    var h := Head('$', |a|);
    if 0 < k < |h| {
      assert Bulk(a)[..k] == h[..k];
      FgetsCutHead('$', |a|, k);
    } else if k > 0 {
      var rest := (a + CRLF)[..k - |h|];
      assert Bulk(a) == h + (a + CRLF);
      assert Bulk(a)[..k] == h + rest;
      FgetsHead('$', |a|, rest);
    }
  }

  lemma {:induction false} ReadBulksWhole(args: seq<string>, rest: string)
    requires forall i | 0 <= i < |args| :: |args[i]| <= LONG_MAX
    ensures ReadBulks(Bulks(args) + rest, |args|) == Parsed(args, |Bulks(args)|)
  {
    if args != [] {
      assert Bulks(args) + rest == Bulk(args[0]) + (Bulks(args[1..]) + rest);
      ReadBulkWhole(args[0], Bulks(args[1..]) + rest);
      ReadBulksWhole(args[1..], rest);
      assert (Bulk(args[0]) + (Bulks(args[1..]) + rest))[|Bulk(args[0])|..] == Bulks(args[1..]) + rest;
      assert args == [args[0]] + args[1..];
    }
  }

  lemma {:induction false} ReadBulksCut(args: seq<string>, k: nat)
    requires forall i | 0 <= i < |args| :: |args[i]| <= LONG_MAX
    requires k < |Bulks(args)|
    ensures ReadBulks(Bulks(args)[..k], |args|) == ShortRead
  {
    var b := Bulk(args[0]);
    if k < |b| {
      assert Bulks(args)[..k] == b[..k];
      ReadBulkCut(args[0], k);
    } else {
      var rest := Bulks(args[1..])[..k - |b|];
      assert Bulks(args)[..k] == b + rest;
      ReadBulkWhole(args[0], rest);
      assert (b + rest)[|b|..] == rest;
      ReadBulksCut(args[1..], k - |b|);
    }
  }

  /** A command wholly in the file is read back exactly, whatever follows it. */
  lemma ReadWhole(c: Command, rest: string)
    requires Printable(c)
    ensures ReadCommand(Encode(c) + rest) == Parsed(c, |Encode(c)|)
  {
    var h := Head('*', |c|);
    assert Encode(c) == h + Bulks(c);
    assert Encode(c) + rest == h + (Bulks(c) + rest);
    FgetsHead('*', |c|, Bulks(c) + rest);
    assert (h + (Bulks(c) + rest))[|h|..] == Bulks(c) + rest;
    ReadBulksWhole(c, rest);
  }

  /** A command cut anywhere before its end is a short read, never another command. */
  lemma ReadCut(c: Command, k: nat)
    requires Printable(c) && 0 < k < |Encode(c)|
    ensures ReadCommand(Encode(c)[..k]) == ShortRead
  {
    var h := Head('*', |c|);
    assert Encode(c) == h + Bulks(c);
    if k < |h| {
      assert Encode(c)[..k] == h[..k];
      FgetsCutHead('*', |c|, k);
      assert h[..k][|h[..k]|..] == [];
    } else {
      var rest := Bulks(c)[..k - |h|];
      assert Encode(c)[..k] == h + rest;
      FgetsHead('*', |c|, rest);
      assert (h + rest)[|h|..] == rest;
      ReadBulksCut(c, k - |h|);
    }
  }

  lemma {:induction false} EncodeAllAppend(a: seq<Command>, b: seq<Command>)
    ensures EncodeAll(a + b) == EncodeAll(a) + EncodeAll(b)
  {
    if a == [] {
      assert a + b == b;
    } else {
      assert (a + b)[1..] == a[1..] + b;
      EncodeAllAppend(a[1..], b);
    }
  }
}
