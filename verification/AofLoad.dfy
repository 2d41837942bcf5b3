/** Loading the append only file: replay its commands, run MULTI blocks only when their EXEC is
    there, and cut a file that ends in the middle of something. */
module AofLoad {
  import opened Resp

  datatype Kind = Unknown | Plain | Multi | Exec

  /** Command lookup by name. */
  type Lookup = string -> Kind

  /** A command read from the file and the offset where it ends. */
  datatype Item = Item(cmd: Command, end: nat)

  /** The loader's state: the fake client's MULTI state, what was executed, and the two offsets
      the file may be cut at. */
  datatype Loader = Loader(multi: bool, queued: seq<Command>, executed: seq<Command>,
                           validUpTo: nat, validBeforeMulti: nat, unknown: bool)

  datatype Outcome =
    | EmptyFile
    | Loaded(executed: seq<Command>)
    | Truncated(executed: seq<Command>, at: nat)   // loaded, and the file is cut at this offset
    | Fatal                                        // the server exits

  const START := Loader(false, [], [], 0, 0, false)

  /** Execute or queue one command. */
  function Run(kind: Lookup, l: Loader, i: Item): Loader
    requires i.cmd != []
  {
    var k := kind(i.cmd[0]);
    if l.unknown || k.Unknown? then l.(unknown := true)
    else
      var v := if k.Multi? then l.(validBeforeMulti := l.validUpTo) else l;
      var e := if v.multi && !k.Exec? then v.(queued := v.queued + [i.cmd])
               else if k.Multi? then v.(multi := true)
               else if k.Exec? && v.multi then v.(multi := false, executed := v.executed + v.queued, queued := [])
               else if k.Exec? then v
               else v.(executed := v.executed + [i.cmd]);
      e.(validUpTo := i.end)
  }

  function RunAll(kind: Lookup, l: Loader, items: seq<Item>): Loader
    requires forall i | 0 <= i < |items| :: items[i].cmd != []
    decreases |items|
  {
    if items == [] then l else RunAll(kind, Run(kind, l, items[0]), items[1..])
  }

  /** How loading ends: at a command boundary, by a short read, or by a malformed command. */
  function Finish(l: Loader, last: Read, loadTruncated: bool): Outcome {
    if l.unknown then Fatal
    else match last
      case ShortRead => if loadTruncated then Truncated(l.executed, l.validUpTo) else Fatal
      case AtEof =>
        if !l.multi then Loaded(l.executed)
        else if loadTruncated then Truncated(l.executed, l.validBeforeMulti) else Fatal
      case _ => Fatal
  }

  /** The commands in `s`, which starts at offset `pos`, and what ended the reading. */
  function Parse(s: string, pos: nat): (r: (seq<Item>, Read))
    ensures forall i | 0 <= i < |r.0| :: r.0[i].cmd != []
    decreases |s|
  {
    match ReadCommand(s)
    case Parsed(c, used) =>
      var rest := Parse(s[used..], pos + used);
      ([Item(c, pos + used)] + rest.0, rest.1)
    case other => ([], other)
  }

  function Load(kind: Lookup, loadTruncated: bool, file: string): Outcome {
    if file == "" then EmptyFile
    else
      var p := Parse(file, 0);
      Finish(RunAll(kind, START, p.0), p.1, loadTruncated)
  }

  // ------------------------------------------------------- the loader's loops

  function After(args: seq<string>, used: nat, r: Read): Read {
    if r.Parsed? then Parsed(args + r.argv, used + r.used) else r
  }

  /** The loop over the arguments of one command; `s` is what is left of the file. */
  method ReadArgv(s: string, argc: nat) returns (r: Read)
    ensures r == ReadBulks(s, argc)
  {
    hide ReadBulk;
    var argv, used: nat, rest, j: nat := [], 0, s, 0;
    assert ReadBulks(s, argc) == After(argv, used, ReadBulks(rest, argc)) by { NothingRead(s, argc); }
    while j < argc
      invariant j <= argc
      invariant ReadBulks(s, argc) == After(argv, used, ReadBulks(rest, argc - j))
    {
      var arg := ReadBulk(rest);
      if !arg.Parsed? { return arg; }
      OneMore(rest, argc - j, argv, used);
      argv, used, rest := argv + arg.argv, used + arg.used, rest[arg.used..];
      j := j + 1;
    }
    return Parsed(argv, used);
  }

  lemma NothingRead(s: string, n: nat)
    ensures After([], 0, ReadBulks(s, n)) == ReadBulks(s, n)
  {
    hide ReadBulks;
    var r := ReadBulks(s, n);
    if r.Parsed? { assert [] + r.argv == r.argv; }
  }

  lemma OneMore(s: string, n: nat, args: seq<string>, used: nat)
    requires n > 0 && ReadBulk(s).Parsed?
    ensures var a := ReadBulk(s);
            After(args, used, ReadBulks(s, n)) == After(args + a.argv, used + a.used, ReadBulks(s[a.used..], n - 1))
  {
    var a := ReadBulk(s);
    var r := ReadBulks(s[a.used..], n - 1);
    if r.Parsed? { assert args + (a.argv + r.argv) == args + a.argv + r.argv; }
  }

  /** The loop over the commands of the file. */
  method LoadAppendOnlyFile(kind: Lookup, loadTruncated: bool, f: string) returns (r: Outcome)
    ensures r == Load(kind, loadTruncated, f)
  {
    hide ReadCommand;
    if f == "" { return EmptyFile; }
    var rest, pos: nat, l := f, 0, START;
    ghost var p := Parse(f, 0);
    while true
      invariant p == Parse(rest, pos)
      invariant Load(kind, loadTruncated, f) == Finish(RunAll(kind, l, p.0), p.1, loadTruncated)
      decreases |rest|
    {
      var c := ReadCommand(rest);
      if !c.Parsed? { return Finish(l, c, loadTruncated); }
      rest, pos := rest[c.used..], pos + c.used;
      ghost var tail := Parse(rest, pos);
      assert p.0[0] == Item(c.argv, pos) && p.0[1..] == tail.0 && p.1 == tail.1;
      l := Run(kind, l, Item(c.argv, pos));
      p := tail;
      if kind(c.argv[0]).Unknown? {
        UnknownStays(kind, l, tail.0);
        return Fatal;
      }
    }
  }

  lemma {:induction false} UnknownStays(kind: Lookup, l: Loader, items: seq<Item>)
    requires l.unknown && forall i | 0 <= i < |items| :: items[i].cmd != []
    ensures RunAll(kind, l, items).unknown
    decreases |items|
  {
    if items != [] { UnknownStays(kind, Run(kind, l, items[0]), items[1..]); }
  }

  // ------------------------------------------------------- reading a cut log

  function Items(cs: seq<Command>, pos: nat): (r: seq<Item>)
    ensures |r| == |cs| && forall i | 0 <= i < |cs| :: r[i].cmd == cs[i]
    decreases |cs|
  {
    if cs == [] then [] else [Item(cs[0], pos + |Encode(cs[0])|)] + Items(cs[1..], pos + |Encode(cs[0])|)
  }

  lemma {:induction false} ItemsEnd(cs: seq<Command>, pos: nat)
    requires cs != []
    ensures Items(cs, pos)[|cs| - 1].end == pos + |EncodeAll(cs)|
    decreases |cs|
  {
    hide Encode, ReadCommand;
    if |cs| > 1 {
      ItemsEnd(cs[1..], pos + |Encode(cs[0])|);
    } else {
      assert EncodeAll(cs[1..]) == "";
    }
  }

  lemma ParseOne(c: Command, tail: string, pos: nat)
    requires Printable(c)
    ensures var p := Parse(tail, pos + |Encode(c)|);
            Parse(Encode(c) + tail, pos) == ([Item(c, pos + |Encode(c)|)] + p.0, p.1)
  {
    hide Encode, ReadCommand;
    ReadWhole(c, tail);
    assert (Encode(c) + tail)[|Encode(c)|..] == tail;
  }

  /** Commands wholly in the file are read in order, whatever follows. */
  lemma {:induction false} ParseWhole(cs: seq<Command>, rest: string, pos: nat)
    requires forall i | 0 <= i < |cs| :: Printable(cs[i])
    ensures var p := Parse(rest, pos + |EncodeAll(cs)|);
            Parse(EncodeAll(cs) + rest, pos) == (Items(cs, pos) + p.0, p.1)
    decreases |cs|
  {
    hide Encode, ReadCommand, Parse;
    var p := Parse(rest, pos + |EncodeAll(cs)|);
    if cs == [] {
      assert EncodeAll(cs) + rest == rest && Items(cs, pos) + p.0 == p.0;
    } else {
      var e, tail := Encode(cs[0]), EncodeAll(cs[1..]) + rest;
      assert EncodeAll(cs) + rest == e + tail;
      ParseOne(cs[0], tail, pos);
      ParseWhole(cs[1..], rest, pos + |e|);
      assert [Item(cs[0], pos + |e|)] + (Items(cs[1..], pos + |e|) + p.0) == Items(cs, pos) + p.0;
    }
  }

  /** How many leading commands lie wholly in the first n bytes. */
  function WholeCommands(cs: seq<Command>, n: nat): (w: nat)
    ensures w <= |cs|
  {
    if cs == [] || n < |Encode(cs[0])| then 0 else 1 + WholeCommands(cs[1..], n - |Encode(cs[0])|)
  }

  lemma {:induction false} WholeCommandsAre(cs: seq<Command>, n: nat)
    requires n <= |EncodeAll(cs)|
    ensures var w := WholeCommands(cs, n);
            && |EncodeAll(cs[..w])| <= n
            && (w < |cs| ==> n < |EncodeAll(cs[..w])| + |Encode(cs[w])|)
            && (w == |cs| ==> n == |EncodeAll(cs)|)
  {
    if cs != [] && n >= |Encode(cs[0])| {
      var w := WholeCommands(cs, n);
      WholeCommandsAre(cs[1..], n - |Encode(cs[0])|);
      assert cs[..w][1..] == cs[1..][..w - 1];
      if w == |cs| { assert cs[..w] == cs; }
    }
  }

  /** What is left of a log cut inside its first command, or before it. */
  lemma ParseStub(cs: seq<Command>, k: nat, pos: nat)
    requires k <= |EncodeAll(cs)| && forall i | 0 <= i < |cs| :: Printable(cs[i])
    requires cs != [] ==> k < |Encode(cs[0])|
    ensures Parse(EncodeAll(cs)[..k], pos) == ([], if k == 0 then AtEof else ShortRead)
  {
    hide Encode, ReadCommand;
    if k > 0 {
      assert EncodeAll(cs)[..k] == Encode(cs[0])[..k];
      ReadCut(cs[0], k);
    }
  }

  lemma CutAt(cs: seq<Command>, w: nat, n: nat)
    requires w <= |cs| && |EncodeAll(cs[..w])| <= n <= |EncodeAll(cs)|
    ensures n - |EncodeAll(cs[..w])| <= |EncodeAll(cs[w..])|
    ensures EncodeAll(cs)[..n] == EncodeAll(cs[..w]) + EncodeAll(cs[w..])[..n - |EncodeAll(cs[..w])|]
  {
    hide Encode;
    assert cs == cs[..w] + cs[w..];
    EncodeAllAppend(cs[..w], cs[w..]);
  }

  lemma ParseFrontAndStub(front: seq<Command>, back: seq<Command>, k: nat, pos: nat)
    requires forall i | 0 <= i < |front| :: Printable(front[i])
    requires forall i | 0 <= i < |back| :: Printable(back[i])
    requires k <= |EncodeAll(back)| && (back != [] ==> k < |Encode(back[0])|)
    ensures Parse(EncodeAll(front) + EncodeAll(back)[..k], pos) ==
            (Items(front, pos), if k == 0 then AtEof else ShortRead)
  {
    hide *;
    var items := Items(front, pos);
    ParseWhole(front, EncodeAll(back)[..k], pos);
    ParseStub(back, k, pos + |EncodeAll(front)|);
    assert items + [] == items;
  }

  /** Every byte cut of a log reads as exactly the commands wholly inside it, followed by the end
      of the file at a command boundary and by a short read anywhere else. */
  lemma ParseCut(cs: seq<Command>, n: nat, pos: nat)
    requires n <= |EncodeAll(cs)| && forall i | 0 <= i < |cs| :: Printable(cs[i])
    ensures var w := WholeCommands(cs, n);
            Parse(EncodeAll(cs)[..n], pos) ==
            (Items(cs[..w], pos), if n == |EncodeAll(cs[..w])| then AtEof else ShortRead)
  {
    hide *;
    var w := WholeCommands(cs, n);
    WholeCommandsAre(cs, n);
    CutAt(cs, w, n);
    ParseFrontAndStub(cs[..w], cs[w..], n - |EncodeAll(cs[..w])|, pos);
  }

  // ---------------------------------------------------------------- recovery

  /** What the server appends: single commands, and MULTI ... EXEC blocks. */
  datatype Entry = Single(cmd: Command) | Block(cmds: seq<Command>)

  function Commands(e: Entry): seq<Command> {
    match e
    case Single(c) => [c]
    case Block(cs) => [["MULTI"]] + cs + [["EXEC"]]
  }

  function Effect(e: Entry): seq<Command> {
    match e
    case Single(c) => [c]
    case Block(cs) => cs
  }

  function Effects(es: seq<Entry>): seq<Command> {
    if es == [] then [] else Effect(es[0]) + Effects(es[1..])
  }

  function Text(e: Entry): string {
    EncodeAll(Commands(e))
  }

  function Log(es: seq<Entry>): string {
    if es == [] then "" else Text(es[0]) + Log(es[1..])
  }

  predicate KnowsMulti(kind: Lookup) {
    kind("MULTI").Multi? && kind("EXEC").Exec?
  }

  predicate EntryOk(kind: Lookup, e: Entry) {
    forall i | 0 <= i < |Effect(e)| :: Printable(Effect(e)[i]) && kind(Effect(e)[i][0]).Plain?
  }

  lemma CommandsPrintable(kind: Lookup, e: Entry)
    requires EntryOk(kind, e)
    ensures forall i | 0 <= i < |Commands(e)| :: Printable(Commands(e)[i])
  {
    match e
    case Single(c) => assert Effect(e)[0] == c;
    case Block(cs) =>
      assert Printable(["MULTI"]) && Printable(["EXEC"]);
      assert forall i | 0 < i < |Commands(e)| - 1 :: Commands(e)[i] == cs[i - 1] == Effect(e)[i - 1];
  }

  /** Outside any MULTI, with everything read so far in force. */
  predicate Idle(l: Loader) {
    !l.multi && l.queued == [] && !l.unknown
  }

  predicate Carries(items: seq<Item>, cs: seq<Command>) {
    |items| == |cs| && forall i | 0 <= i < |cs| :: items[i].cmd == cs[i]
  }

  lemma {:induction false} RunQueued(kind: Lookup, l: Loader, items: seq<Item>)
    requires l.multi && !l.unknown && forall i | 0 <= i < |items| :: items[i].cmd != [] && kind(items[i].cmd[0]).Plain?
    ensures var r := RunAll(kind, l, items);
            && r.multi && !r.unknown && r.executed == l.executed && r.validBeforeMulti == l.validBeforeMulti
            && |r.queued| == |l.queued| + |items|
            && (forall i | 0 <= i < |l.queued| :: r.queued[i] == l.queued[i])
            && (forall i | 0 <= i < |items| :: r.queued[|l.queued| + i] == items[i].cmd)
            && r.validUpTo == if items == [] then l.validUpTo else items[|items| - 1].end
    decreases |items|
  {
    if items != [] { RunQueued(kind, Run(kind, l, items[0]), items[1..]); }
  }

  lemma {:induction false} RunAppend(kind: Lookup, l: Loader, a: seq<Item>, b: seq<Item>)
    requires forall i | 0 <= i < |a| :: a[i].cmd != []
    requires forall i | 0 <= i < |b| :: b[i].cmd != []
    ensures RunAll(kind, l, a + b) == RunAll(kind, RunAll(kind, l, a), b)
    decreases |a|
  {
    if a == [] {
      assert a + b == b;
    } else {
      assert (a + b)[1..] == a[1..] + b;
      RunAppend(kind, Run(kind, l, a[0]), a[1..], b);
    }
  }

  lemma RunOpened(kind: Lookup, l: Loader, items: seq<Item>, cs: seq<Command>)
    requires Idle(l) && KnowsMulti(kind) && |items| == |cs| + 1 && items[0].cmd == ["MULTI"]
    requires forall i | 0 <= i < |cs| :: items[i + 1].cmd == cs[i] && cs[i] != [] && kind(cs[i][0]).Plain?
    ensures forall i | 0 <= i < |items| :: items[i].cmd != []
    ensures var r := RunAll(kind, l, items);
            && r.multi && !r.unknown && r.executed == l.executed && r.queued == cs
            && r.validBeforeMulti == l.validUpTo && r.validUpTo == items[|items| - 1].end
  {
    forall i | 1 <= i < |items| ensures items[i].cmd == cs[i - 1] { assert items[i - 1 + 1].cmd == cs[i - 1]; }
    RunQueued(kind, Run(kind, l, items[0]), items[1..]);
  }

  /** Some commands of an entry, but not its last, leave its effect pending. */
  lemma RunPart(kind: Lookup, l: Loader, e: Entry, items: seq<Item>)
    requires KnowsMulti(kind) && EntryOk(kind, e) && Idle(l)
    requires 0 < |items| < |Commands(e)| && Carries(items, Commands(e)[..|items|])
    ensures forall i | 0 <= i < |items| :: items[i].cmd != []
    ensures var r := RunAll(kind, l, items);
            && r.multi && !r.unknown && r.executed == l.executed && r.queued == e.cmds[..|items| - 1]
            && r.validBeforeMulti == l.validUpTo && r.validUpTo == items[|items| - 1].end
  {
    hide RunAll;
    var cs := e.cmds[..|items| - 1];
    forall i | 0 <= i < |cs| ensures items[i + 1].cmd == cs[i] && cs[i] != [] && kind(cs[i][0]).Plain? {
      assert Commands(e)[i + 1] == e.cmds[i] == Effect(e)[i];
    }
    RunOpened(kind, l, items, cs);
  }

  /** A whole entry takes effect, and its end becomes the offset to cut at. */
  lemma RunEntry(kind: Lookup, l: Loader, e: Entry, items: seq<Item>)
    requires KnowsMulti(kind) && EntryOk(kind, e) && Idle(l) && Carries(items, Commands(e))
    ensures forall i | 0 <= i < |items| :: items[i].cmd != []
    ensures var r := RunAll(kind, l, items);
            Idle(r) && r.executed == l.executed + Effect(e) && r.validUpTo == items[|items| - 1].end
  {
    CommandsPrintable(kind, e);
    match e
    case Single(c) =>
      assert items[1..] == [] && Effect(e)[0] == c;
    case Block(cs) =>
      var t := |items| - 1;
      assert items == items[..t] + items[t..] && items[t..][1..] == [];
      RunPart(kind, l, e, items[..t]);
      RunAppend(kind, l, items[..t], items[t..]);
      assert cs[..t - 1] == cs;
  }

  /** The offset a log cut after n bytes of entry e is cut back to, relative to the entry: its
      start, unless the cut lies inside a later command of a block. */
  function CutBack(e: Entry, n: nat): nat {
    var t := WholeCommands(Commands(e), n);
    if t == 0 || n == |EncodeAll(Commands(e)[..t])| then 0 else |EncodeAll(Commands(e)[..t])|
  }

  /** How many leading entries lie wholly in the first n bytes. */
  function WholeEntries(es: seq<Entry>, n: nat): (w: nat)
    ensures w <= |es|
  {
    if es == [] || n < |Text(es[0])| then 0 else 1 + WholeEntries(es[1..], n - |Text(es[0])|)
  }

  lemma {:induction false} WholeEntriesAre(es: seq<Entry>, n: nat)
    requires n <= |Log(es)|
    ensures var w := WholeEntries(es, n);
            && |Log(es[..w])| <= n
            && (w < |es| ==> n - |Log(es[..w])| < |Text(es[w])|)
            && (w == |es| ==> n == |Log(es[..w])|)
  {
    hide Text;
    if es != [] && n >= |Text(es[0])| {
      var w := WholeEntries(es, n);
      WholeEntriesAre(es[1..], n - |Text(es[0])|);
      assert es[..w][1..] == es[1..][..w - 1];
    }
  }

  /** Cut in the middle of an entry: nothing of that entry runs. */
  lemma LoadPart(kind: Lookup, e: Entry, n: nat, pos: nat, l: Loader)
    requires KnowsMulti(kind) && EntryOk(kind, e) && 0 < n < |Text(e)| && Idle(l) && l.validUpTo == pos
    ensures var p := Parse(Text(e)[..n], pos);
            Finish(RunAll(kind, l, p.0), p.1, true) == Truncated(l.executed, pos + CutBack(e, n))
  {
    hide Encode, EncodeAll, Parse;
    var cs := Commands(e);
    CommandsPrintable(kind, e);
    ParseCut(cs, n, pos);
    WholeCommandsAre(cs, n);
    var t := WholeCommands(cs, n);
    if t > 0 {
      ItemsEnd(cs[..t], pos);
      RunPart(kind, l, e, Items(cs[..t], pos));
    } else {
      NoBytes(cs);
    }
  }

  lemma LoadNothing(kind: Lookup, pos: nat, l: Loader)
    requires Idle(l)
    ensures var p := Parse("", pos); Finish(RunAll(kind, l, p.0), p.1, true) == Loaded(l.executed)
  {
  }

  lemma NoBytes(cs: seq<Command>)
    ensures EncodeAll(cs[..0]) == ""
  {
  }

  /** The outcome of loading the rest of a log that is cut after n more bytes. */
  function Expected(es: seq<Entry>, n: nat, pos: nat, executed: seq<Command>): Outcome
    decreases |es|
  {
    if es == [] || n == 0 then Loaded(executed)
    else if n < |Text(es[0])| then Truncated(executed, pos + CutBack(es[0], n))
    else Expected(es[1..], n - |Text(es[0])|, pos + |Text(es[0])|, executed + Effect(es[0]))
  }

  lemma {:induction false} LoadLog(kind: Lookup, es: seq<Entry>, n: nat, pos: nat, l: Loader)
    requires KnowsMulti(kind) && (forall i | 0 <= i < |es| :: EntryOk(kind, es[i])) && n <= |Log(es)|
    requires Idle(l) && l.validUpTo == pos
    ensures var p := Parse(Log(es)[..n], pos);
            Finish(RunAll(kind, l, p.0), p.1, true) == Expected(es, n, pos, l.executed)
    decreases |es|
  {
    hide Encode, EncodeAll, Commands, CutBack, Effect, EntryOk, Parse, RunAll, Finish, Items, Text, KnowsMulti;
    if es == [] || n == 0 {
      LoadNothing(kind, pos, l);
      assert Log(es)[..n] == "";
    } else {
      var text := Text(es[0]);
      if n < |text| {
        assert Log(es)[..n] == text[..n];
        LoadPart(kind, es[0], n, pos, l);
      } else {
        var rest := Log(es[1..])[..n - |text|];
        assert Log(es)[..n] == text + rest;
        LoadEntry(kind, es[0], rest, pos, l);
        var items := Items(Commands(es[0]), pos);
        LoadLog(kind, es[1..], n - |text|, pos + |text|, RunAll(kind, l, items));
      }
    }
  }

  lemma LoadEntry(kind: Lookup, e: Entry, rest: string, pos: nat, l: Loader)
    requires KnowsMulti(kind) && EntryOk(kind, e) && Idle(l) && l.validUpTo == pos
    ensures var items := Items(Commands(e), pos);
            && (forall i | 0 <= i < |items| :: items[i].cmd != [])
            && var r := RunAll(kind, l, items);
            && Idle(r) && r.executed == l.executed + Effect(e) && r.validUpTo == pos + |Text(e)|
            && var p, q := Parse(Text(e) + rest, pos), Parse(rest, pos + |Text(e)|);
            && RunAll(kind, l, p.0) == RunAll(kind, r, q.0) && p.1 == q.1
  {
    hide Encode, EncodeAll, Parse;
    var cs := Commands(e);
    CommandsPrintable(kind, e);
    ItemsEnd(cs, pos);
    RunEntry(kind, l, e, Items(cs, pos));
    ParseWhole(cs, rest, pos);
    RunAppend(kind, l, Items(cs, pos), Parse(rest, pos + |Text(e)|).0);
  }

  lemma TextNotEmpty(e: Entry)
    ensures Text(e) != ""
  {
    hide Bulks, Decimal.Dec;
    assert EncodeAll(Commands(e)) == Encode(Commands(e)[0]) + EncodeAll(Commands(e)[1..]);
  }

  /** The outcome in closed form, for the m entries that lie wholly inside the cut. */
  function Recovered(es: seq<Entry>, m: nat, n: nat, pos: nat, executed: seq<Command>): Outcome
    requires m <= |es| && |Log(es[..m])| <= n && (m == |es| ==> |Log(es[..m])| == n)
  {
    var end := |Log(es[..m])|;
    if n == end then Loaded(executed + Effects(es[..m]))
    else Truncated(executed + Effects(es[..m]), pos + end + CutBack(es[m], n - end))
  }

  lemma FirstOf(es: seq<Entry>, m: nat)
    requires 0 < m <= |es|
    ensures Text(es[0]) != "" && Log(es[..m]) == Text(es[0]) + Log(es[1..][..m - 1])
    ensures Effects(es[..m]) == Effect(es[0]) + Effects(es[1..][..m - 1])
  {
    hide Text, Effect;
    TextNotEmpty(es[0]);
    assert es[..m][1..] == es[1..][..m - 1];
  }

  lemma {:induction false} ExpectedIs(es: seq<Entry>, m: nat, n: nat, pos: nat, executed: seq<Command>)
    requires m <= |es| && |Log(es[..m])| <= n && (m == |es| ==> |Log(es[..m])| == n)
    requires m < |es| ==> n < |Log(es[..m])| + |Text(es[m])|
    ensures Expected(es, n, pos, executed) == Recovered(es, m, n, pos, executed)
    decreases m
  {
    hide Text, CutBack, Effect;
    if m == 0 {
      assert executed + [] == executed;
    } else {
      hide Log, Effects;
      FirstOf(es, m);
      var (text, rest) := (Text(es[0]), es[1..]);
      ExpectedIs(rest, m - 1, n - |text|, pos + |text|, executed + Effect(es[0]));
      assert executed + Effect(es[0]) + Effects(rest[..m - 1]) == executed + (Effect(es[0]) + Effects(rest[..m - 1]));
    }
  }

  /** Recovery, for every log and every byte cut: exactly the entries wholly inside the cut take
      effect, and the file is cut back to their end, except when the cut lies inside a later
      command of an open MULTI block (see CutBackExact). */
  lemma Recovery(kind: Lookup, es: seq<Entry>, n: nat)
    requires KnowsMulti(kind) && (forall i | 0 <= i < |es| :: EntryOk(kind, es[i])) && n <= |Log(es)|
    ensures var m := WholeEntries(es, n);
            && |Log(es[..m])| <= n && (m == |es| ==> |Log(es[..m])| == n)
            && (m < |es| ==> n < |Log(es[..m])| + |Text(es[m])|)
            && Load(kind, true, Log(es)[..n]) == if n == 0 then EmptyFile else Recovered(es, m, n, 0, [])
  {
    hide Log, Text, Effects, CutBack, EntryOk, KnowsMulti, Parse, RunAll, Recovered;
    WholeEntriesAre(es, n);
    LoadLog(kind, es, n, 0, START);
    ExpectedIs(es, WholeEntries(es, n), n, 0, []);
  }

  /** Uncut, the log gives back every entry. */
  lemma RecoverAll(kind: Lookup, es: seq<Entry>)
    requires KnowsMulti(kind) && es != [] && forall i | 0 <= i < |es| :: EntryOk(kind, es[i])
    ensures Load(kind, true, Log(es)) == Loaded(Effects(es))
  {
    hide *;
    var n := |Log(es)|;
    assert es[..|es|] == es && Log(es)[..n] == Log(es);
    LogNotEmpty(es);
    WholeIs(es, n, |es|);
    Recovery(kind, es, n);
    RecoveredAll(es);
  }

  lemma LogNotEmpty(es: seq<Entry>)
    requires es != []
    ensures Log(es) != ""
  {
    hide Text;
    TextNotEmpty(es[0]);
  }

  lemma RecoveredAll(es: seq<Entry>)
    ensures es[..|es|] == es && Recovered(es, |es|, |Log(es)|, 0, []) == Loaded(Effects(es))
  {
    hide Text, Effects, Log;
    assert es[..|es|] == es && [] + Effects(es) == Effects(es);
  }

  lemma {:induction false} WholeIs(es: seq<Entry>, n: nat, m: nat)
    requires m <= |es| && |Log(es[..m])| <= n && (m < |es| ==> n < |Log(es[..m])| + |Text(es[m])|)
    ensures WholeEntries(es, n) == m
    decreases m
  {
    hide Text;
    if m > 0 {
      assert es[..m][1..] == es[1..][..m - 1];
      WholeIs(es[1..], n - |Text(es[0])|, m - 1);
    }
  }

  lemma EncodedLength(cs: seq<Command>, t: nat)
    requires 0 < t <= |cs|
    ensures |EncodeAll(cs[..t])| >= |Encode(cs[0])| > 0
  {
    hide Bulks, Decimal.Dec;
    assert cs[..t][0] == cs[0];
  }

  /** The file is cut back to the end of the last entry in force exactly when the cut is not inside
      a command that follows an unfinished MULTI. */
  lemma CutBackExact(e: Entry, n: nat)
    requires 0 < n < |Text(e)|
    ensures CutBack(e, n) == 0 <==>
            n < |Encode(Commands(e)[0])| || exists t | 0 < t < |Commands(e)| :: n == |EncodeAll(Commands(e)[..t])|
    ensures e.Single? ==> CutBack(e, n) == 0
  {
    hide Encode, EncodeAll;
    var cs := Commands(e);
    var w := WholeCommands(cs, n);
    WholeCommandsAre(cs, n);
    if w > 0 { EncodedLength(cs, w); } else { NoBytes(cs); }
    if t :| 0 < t < |cs| && n == |EncodeAll(cs[..t])| {
      CommandsIs(cs, n, t);
    }
    if e.Single? { OneCommand(cs); }
  }

  /** So the cut does not always go back that far: one byte into the EXEC of a block, its MULTI and
      its command stay in the file although they have not been run. */
  lemma OpenMultiKept(kind: Lookup, c: Command)
    requires KnowsMulti(kind) && EntryOk(kind, Block([c]))
    ensures var at := |Encode(["MULTI"])| + |Encode(c)|;
            && at + 1 <= |Log([Block([c])])|
            && Load(kind, true, Log([Block([c])])[..at + 1]) == Truncated([], at) && at > 0
  {
    hide Encode, Load, EntryOk, KnowsMulti;
    var e, n := Block([c]), |Encode(["MULTI"])| + |Encode(c)| + 1;
    var m: Command, x: Command := ["MULTI"], ["EXEC"];
    assert Commands(e) == [m, c, x] && [m, c, x][..2] == [m, c] && [e][1..] == [] && [e][..0] == [];
    assert Log([]) == "" && Effects([]) == [];
    ThreeCommands(m, c, x, n);
    Lengths(m);
    WholeIs([e], n, 0);
    Recovery(kind, [e], n);
  }

  lemma Lengths(c: Command)
    ensures |Encode(c)| > 1
  {
    hide Bulks, Decimal.Dec;
  }

  lemma ThreeCommands(a: Command, b: Command, c: Command, n: nat)
    requires n == |Encode(a)| + |Encode(b)| + 1
    ensures WholeCommands([a, b, c], n) == 2 && |EncodeAll([a, b])| == n - 1 && n < |EncodeAll([a, b, c])|
  {
    hide Encode;
    Lengths(c);
    assert [a, b, c][1..] == [b, c] && [b, c][1..] == [c];
    assert WholeCommands([c], 1) == 0;
    assert WholeCommands([b, c], |Encode(b)| + 1) == 1;
    OneCommand([a]);
    OneCommand([b]);
    OneCommand([c]);
    EncodeAllAppend([a], [b]);
    EncodeAllAppend([a, b], [c]);
    assert [a] + [b] == [a, b] && [a, b] + [c] == [a, b, c];
  }

  lemma OneCommand(cs: seq<Command>)
    requires |cs| == 1
    ensures EncodeAll(cs) == Encode(cs[0])
  {
    hide Encode;
    assert cs[1..] == [];
  }

  lemma {:induction false} CommandsIs(cs: seq<Command>, n: nat, t: nat)
    requires t <= |cs| && n == |EncodeAll(cs[..t])|
    ensures t < |cs| ==> WholeCommands(cs, n) == t
    decreases t
  {
    hide Bulks, Decimal.Dec;
    if t > 0 {
      assert cs[..t][1..] == cs[1..][..t - 1];
      CommandsIs(cs[1..], n - |Encode(cs[0])|, t - 1);
    }
  }

  /** Cutting the file where the loader says loses nothing more: the next load runs the same commands. */
  lemma CutIsStable(kind: Lookup, es: seq<Entry>, n: nat)
    requires KnowsMulti(kind) && (forall i | 0 <= i < |es| :: EntryOk(kind, es[i])) && n <= |Log(es)|
    requires Load(kind, true, Log(es)[..n]).Truncated?
    ensures var first := Load(kind, true, Log(es)[..n]);
            && first.at <= n
            && var again := Load(kind, true, Log(es)[..first.at]);
            if again.EmptyFile? then first.executed == []
            else (again.Loaded? || again.Truncated?) && again.executed == first.executed
  {
    hide Log, Text, EntryOk, KnowsMulti, Load, CutBack;
    var m := WholeEntries(es, n);
    Recovery(kind, es, n);
    var end := |Log(es[..m])|;
    CutBackBound(es[m], n - end);
    var at := end + CutBack(es[m], n - end);
    WholeIs(es, at, m);
    Recovery(kind, es, at);
    if at == 0 { NothingBefore(es, m); }
  }

  lemma CutBackBound(e: Entry, n: nat)
    requires n <= |Text(e)|
    ensures CutBack(e, n) <= n
  {
    hide Encode, EncodeAll;
    WholeCommandsAre(Commands(e), n);
  }

  lemma NothingBefore(es: seq<Entry>, m: nat)
    requires m <= |es| && Log(es[..m]) == ""
    ensures Effects(es[..m]) == []
  {
    hide Text;
    if m > 0 { TextNotEmpty(es[..m][0]); }
  }

  // --------------------------------------------------------- files not to load

  /** Text that does not begin with the length of an argument, or with a negative one. */
  predicate BadLength(s: string) {
    s != "" && (s[0] != '$' || Decimal.Atoi(Fgets(s)[1..]) < 0)
  }

  /** An argument that does not begin with its length, after some that do. */
  predicate BadArgument(bad: string, n: nat, args: seq<string>, rest: string) {
    && |args| < n <= Decimal.LONG_MAX && (forall i | 0 <= i < |args| :: |args[i]| <= Decimal.LONG_MAX)
    && BadLength(rest) && bad == Head('*', n) + Bulks(args) + rest
  }

  /** Text with which no command begins: another first character, a count below one, or a bad argument. */
  ghost predicate Malformed(bad: string) {
    bad != "" &&
    (|| bad[0] != '*'
     || (|Fgets(bad)| > 1 && Decimal.Atoi(Fgets(bad)[1..]) < 1)
     || exists n, args, rest :: BadArgument(bad, n, args, rest))
  }

  lemma {:induction false} BulksBad(args: seq<string>, n: nat, rest: string)
    requires |args| < n && (forall i | 0 <= i < |args| :: |args[i]| <= Decimal.LONG_MAX)
    requires BadLength(rest)
    ensures ReadBulks(Bulks(args) + rest, n) == BadFormat
  {
    hide Bulk, ReadBulk, BadLength;
    if args == [] {
      assert Bulks(args) + rest == rest;
      BulkBad(rest);
    } else {
      var tail := Bulks(args[1..]) + rest;
      assert Bulks(args) + rest == Bulk(args[0]) + tail;
      ReadBulkWhole(args[0], tail);
      assert (Bulk(args[0]) + tail)[|Bulk(args[0])|..] == tail;
      BulksBad(args[1..], n - 1, rest);
    }
  }

  lemma BulkBad(rest: string)
    requires BadLength(rest)
    ensures ReadBulk(rest) == BadFormat
  {
    assert Fgets(rest)[0] == rest[0];
  }

  lemma ReadMalformed(bad: string)
    requires Malformed(bad)
    ensures ReadCommand(bad) == BadFormat
  {
    hide LineEnd, Decimal.Atoi, Bulks, ReadBulks, BadArgument;
    assert Fgets(bad)[0] == bad[0];
    if bad[0] == '*' && !(|Fgets(bad)| > 1 && Decimal.Atoi(Fgets(bad)[1..]) < 1) {
      var n, args, rest :| BadArgument(bad, n, args, rest);
      ReadBadArgument(bad, n, args, rest);
    }
  }

  lemma ReadBadArgument(bad: string, n: nat, args: seq<string>, rest: string)
    requires BadArgument(bad, n, args, rest)
    ensures ReadCommand(bad) == BadFormat
  {
    hide LineEnd, Decimal.Atoi, Bulks, ReadBulks;
    var h, tail := Head('*', n), Bulks(args) + rest;
    assert bad == h + tail && bad[|h|..] == tail && bad[0] == '*';
    FgetsHead('*', n, tail);
    BulksBad(args, n, rest);
  }

  lemma ParseBad(kind: Lookup, cs: seq<Command>, bad: string)
    requires (forall i | 0 <= i < |cs| :: Printable(cs[i])) && ReadCommand(bad) == BadFormat
    ensures Parse(EncodeAll(cs) + bad, 0) == (Items(cs, 0), BadFormat)
  {
    hide EncodeAll, ReadCommand, Items, Printable;
    ParseWhole(cs, bad, 0);
    assert Parse(bad, |EncodeAll(cs)|) == ([], BadFormat);
    assert Items(cs, 0) + [] == Items(cs, 0);
  }

  /** A malformed file is never loaded, not even up to where it is malformed. */
  lemma MalformedIsFatal(kind: Lookup, loadTruncated: bool, cs: seq<Command>, bad: string)
    requires (forall i | 0 <= i < |cs| :: Printable(cs[i])) && Malformed(bad)
    ensures Load(kind, loadTruncated, EncodeAll(cs) + bad) == Fatal
  {
    hide EncodeAll, Items, Parse, Malformed, Printable, RunAll;
    ReadMalformed(bad);
    ParseBad(kind, cs, bad);
    assert bad != "" by { ReadNothing(bad); }
  }

  lemma ReadNothing(bad: string)
    requires ReadCommand(bad) == BadFormat
    ensures bad != ""
  {
  }

  /** Nor is one with an unknown command, whatever follows it. */
  lemma UnknownIsFatal(kind: Lookup, loadTruncated: bool, cs: seq<Command>, c: Command, tail: string)
    requires (forall i | 0 <= i < |cs| :: Printable(cs[i])) && Printable(c) && kind(c[0]).Unknown?
    ensures Load(kind, loadTruncated, EncodeAll(cs) + Encode(c) + tail) == Fatal
  {
    hide Encode, EncodeAll, Items, Parse, Load;
    var pos := |EncodeAll(cs)| + |Encode(c)|;
    ParseMiddle(cs, c, tail);
    Lengths(c);
    FatalAt(kind, loadTruncated, EncodeAll(cs) + Encode(c) + tail, Items(cs, 0), Item(c, pos), Parse(tail, pos).0);
  }

  lemma FatalAt(kind: Lookup, loadTruncated: bool, file: string, a: seq<Item>, i: Item, b: seq<Item>)
    requires file != "" && i.cmd != [] && kind(i.cmd[0]).Unknown? && Parse(file, 0).0 == a + ([i] + b)
    ensures Load(kind, loadTruncated, file) == Fatal
  {
    hide Parse, Run, RunAll;
    var all := a + ([i] + b);
    forall k | 0 <= k < |a| ensures a[k].cmd != [] { assert all[k] == a[k]; }
    forall k | 0 <= k < |b| ensures b[k].cmd != [] { assert all[|a| + 1 + k] == b[k]; }
    RunAppend(kind, START, a, [i] + b);
    RunUnknown(kind, RunAll(kind, START, a), i, b);
  }

  lemma ParseMiddle(cs: seq<Command>, c: Command, tail: string)
    requires (forall i | 0 <= i < |cs| :: Printable(cs[i])) && Printable(c)
    ensures var pos := |EncodeAll(cs)| + |Encode(c)|;
            var p := Parse(tail, pos);
            Parse(EncodeAll(cs) + Encode(c) + tail, 0) == (Items(cs, 0) + ([Item(c, pos)] + p.0), p.1)
  {
    hide Encode, EncodeAll, Items, Parse, Printable;
    assert EncodeAll(cs) + Encode(c) + tail == EncodeAll(cs) + (Encode(c) + tail);
    ParseWhole(cs, Encode(c) + tail, 0);
    ParseOne(c, tail, |EncodeAll(cs)|);
  }

  lemma RunUnknown(kind: Lookup, l: Loader, i: Item, rest: seq<Item>)
    requires i.cmd != [] && kind(i.cmd[0]).Unknown? && forall k | 0 <= k < |rest| :: rest[k].cmd != []
    ensures RunAll(kind, l, [i] + rest).unknown
  {
    assert ([i] + rest)[1..] == rest;
    UnknownStays(kind, Run(kind, l, i), rest);
  }
}
