/** The append only file over the whole life of a server: commands are fed and flushed while a
    child rewrites the log, receives the differences through a pipe, and is told when no more will
    come. Every interleaving of the two processes is a run of this state machine. */
module AofRewrite {
  import opened Wrappers
  import opened Decimal
  import opened Resp
  import opened AofLoad
  import opened AofBuffers

  // ------------------------------------------------------------------ replay

  predicate IsSelect(c: Command) {
    |c| == 2 && c[0] == "SELECT"
  }

  function Select(db: nat): Command {
    ["SELECT", Dec(db)]
  }

  /** Executing a command in a database of the dataset. */
  type Exec<!D> = (D, int, Command) -> D

  /** Replaying commands, starting with dataset d and database db selected. */
  function Replay<D>(exec: Exec<D>, d: D, db: int, cs: seq<Command>): (D, int)
    decreases |cs|
  {
    if cs == [] then (d, db)
    else if IsSelect(cs[0]) then Replay(exec, d, Atoi(cs[0][1]), cs[1..])
    else Replay(exec, exec(d, db, cs[0]), db, cs[1..])
  }

  lemma {:induction false} ReplayAppend<D>(exec: Exec<D>, d: D, db: int, a: seq<Command>, b: seq<Command>)
    ensures var r := Replay(exec, d, db, a);
            Replay(exec, d, db, a + b) == Replay(exec, r.0, r.1, b)
    decreases |a|
  {
    hide Atoi;
    if a == [] {
      assert a + b == b;
    } else {
      assert (a + b)[1..] == a[1..] + b;
      if IsSelect(a[0]) {
        ReplayAppend(exec, d, Atoi(a[0][1]), a[1..], b);
      } else {
        ReplayAppend(exec, exec(d, db, a[0]), db, a[1..], b);
      }
    }
  }

  /** Commands other than SELECT leave the selected database alone. */
  lemma {:induction false} ReplayInDb<D>(exec: Exec<D>, d: D, db: int, cs: seq<Command>)
    requires forall i | 0 <= i < |cs| :: !IsSelect(cs[i])
    ensures Replay(exec, d, db, cs).1 == db
    decreases |cs|
  {
    if cs != [] { ReplayInDb(exec, exec(d, db, cs[0]), db, cs[1..]); }
  }

  // ------------------------------------------------------ what the loader runs

  /** The commands of a log that have been run, and those that wait for the EXEC of an open MULTI. */
  datatype Played = Played(open: bool, queued: seq<Command>, done: seq<Command>)

  const NOTHING := Played(false, [], [])

  function Play(kind: Lookup, p: Played, c: Command): Played
    requires c != []
  {
    if p.open && !kind(c[0]).Exec? then p.(queued := p.queued + [c])
    else if kind(c[0]).Multi? then p.(open := true)
    else if kind(c[0]).Exec? then Played(false, [], p.done + p.queued)
    else p.(done := p.done + [c])
  }

  /** Commands that can be printed and looked up. */
  predicate Known(kind: Lookup, cs: seq<Command>) {
    forall i | 0 <= i < |cs| :: Printable(cs[i]) && !kind(cs[i][0]).Unknown?
  }

  predicate AllPlain(kind: Lookup, cs: seq<Command>) {
    forall i | 0 <= i < |cs| :: Printable(cs[i]) && kind(cs[i][0]).Plain?
  }

  /** Outside a MULTI nothing waits. */
  predicate Proper(p: Played) {
    !p.open ==> p.queued == []
  }

  function PlayAll(kind: Lookup, p: Played, cs: seq<Command>): (r: Played)
    requires Known(kind, cs)
    ensures Proper(p) ==> Proper(r)
    decreases |cs|
  {
    if cs == [] then p else PlayAll(kind, Play(kind, p, cs[0]), cs[1..])
  }

  function All(p: Played): seq<Command> {
    p.done + p.queued
  }

  lemma {:induction false} PlayAppend(kind: Lookup, p: Played, a: seq<Command>, b: seq<Command>)
    requires Known(kind, a) && Known(kind, b)
    ensures Known(kind, a + b) && PlayAll(kind, p, a + b) == PlayAll(kind, PlayAll(kind, p, a), b)
    decreases |a|
  {
    hide Play;
    if a == [] {
      assert a + b == b;
    } else {
      assert (a + b)[1..] == a[1..] + b;
      PlayAppend(kind, Play(kind, p, a[0]), a[1..], b);
    }
  }

  /** Plain commands run at once, or all wait. */
  lemma {:induction false} PlayPlain(kind: Lookup, p: Played, cs: seq<Command>)
    requires AllPlain(kind, cs)
    ensures Known(kind, cs)
    ensures PlayAll(kind, p, cs) == if p.open then p.(queued := p.queued + cs) else p.(done := p.done + cs)
    decreases |cs|
  {
    if cs == [] {
      assert p.queued + cs == p.queued && p.done + cs == p.done;
    } else {
      PlayPlain(kind, Play(kind, p, cs[0]), cs[1..]);
      assert p.queued + [cs[0]] + cs[1..] == p.queued + cs && p.done + [cs[0]] + cs[1..] == p.done + cs;
    }
  }

  /** What has been run stays run. */
  lemma {:induction false} DoneGrows(kind: Lookup, p: Played, cs: seq<Command>)
    requires Known(kind, cs)
    ensures p.done <= PlayAll(kind, p, cs).done
    decreases |cs|
  {
    if cs != [] { DoneGrows(kind, Play(kind, p, cs[0]), cs[1..]); }
  }

  /** The loader plays the commands it reads. */
  lemma {:induction false} RunPlays(kind: Lookup, l: Loader, cs: seq<Command>, pos: nat)
    requires Known(kind, cs) && !l.unknown && (!l.multi ==> l.queued == [])
    ensures forall i | 0 <= i < |cs| :: cs[i] != []
    ensures var r, p := RunAll(kind, l, Items(cs, pos)), PlayAll(kind, Played(l.multi, l.queued, l.executed), cs);
            !r.unknown && r.multi == p.open && r.queued == p.queued && r.executed == p.done
    decreases |cs|
  {
    hide Encode;
    if cs != [] {
      var end := pos + |Encode(cs[0])|;
      assert Items(cs, pos)[0] == Item(cs[0], end) && Items(cs, pos)[1..] == Items(cs[1..], end);
      RunPlays(kind, Run(kind, l, Item(cs[0], end)), cs[1..], end);
      RunPlaysOne(kind, l, cs[0], end);
    }
  }

  /** The offsets follow the commands read. */
  lemma {:induction false} RunEnds(kind: Lookup, l: Loader, cs: seq<Command>, pos: nat)
    requires Known(kind, cs) && !l.unknown && l.validUpTo == pos && l.validBeforeMulti <= pos
    ensures forall i | 0 <= i < |cs| :: cs[i] != []
    ensures var r := RunAll(kind, l, Items(cs, pos));
            r.validUpTo == pos + |EncodeAll(cs)| && r.validBeforeMulti <= r.validUpTo
    decreases |cs|
  {
    hide Encode;
    if cs != [] {
      var end := pos + |Encode(cs[0])|;
      assert Items(cs, pos)[0] == Item(cs[0], end) && Items(cs, pos)[1..] == Items(cs[1..], end);
      RunEnds(kind, Run(kind, l, Item(cs[0], end)), cs[1..], end);
    }
  }

  lemma RunPlaysOne(kind: Lookup, l: Loader, c: Command, end: nat)
    requires c != [] && !kind(c[0]).Unknown? && !l.unknown && (!l.multi ==> l.queued == [])
    ensures var r := Run(kind, l, Item(c, end));
            Played(r.multi, r.queued, r.executed) == Play(kind, Played(l.multi, l.queued, l.executed), c)
  {
    assert l.executed + [] == l.executed;
  }

  /** Loading any byte cut of a log: the commands wholly inside it are played, and the file is found
      complete exactly if the cut falls between commands and outside MULTI. Otherwise it is truncated,
      or not loaded at all if that is not allowed. */
  lemma LoadCut(kind: Lookup, loadTruncated: bool, cs: seq<Command>, n: nat)
    requires Known(kind, cs) && n <= |EncodeAll(cs)|
    ensures var w := WholeCommands(cs, n);
            var p, o := PlayAll(kind, NOTHING, cs[..w]), Load(kind, loadTruncated, EncodeAll(cs)[..n]);
            if n == 0 then o == EmptyFile
            else if n == |EncodeAll(cs[..w])| && !p.open then o == Loaded(p.done)
            else if !loadTruncated then o == Fatal
            else
              && o.Truncated? && o.executed == p.done && o.at <= n
              && (n != |EncodeAll(cs[..w])| ==> o.at == |EncodeAll(cs[..w])|)
  {
    hide EncodeAll, Parse, Items, WholeCommands, Printable, RunAll, PlayAll;
    var w := WholeCommands(cs, n);
    ParseCut(cs, n, 0);
    RunPlays(kind, START, cs[..w], 0);
    RunEnds(kind, START, cs[..w], 0);
    WholeCommandsAre(cs, n);
  }

  lemma EncodesToNothing(cs: seq<Command>)
    ensures EncodeAll(cs) == "" <==> cs == []
  {
    hide Bulks, Dec;
  }

  lemma WholeIsAll(cs: seq<Command>)
    ensures WholeCommands(cs, |EncodeAll(cs)|) == |cs|
  {
    hide Encode;
    if cs != [] { WholeIsAll(cs[1..]); }
  }

  lemma LoadWhole(kind: Lookup, cs: seq<Command>)
    requires Known(kind, cs)
    ensures var p, o := PlayAll(kind, NOTHING, cs), Load(kind, true, EncodeAll(cs));
            if cs == [] then o == EmptyFile
            else if !p.open then o == Loaded(p.done) else o.Truncated? && o.executed == p.done
  {
    hide EncodeAll, WholeCommands, Load, PlayAll, Printable;
    var n := |EncodeAll(cs)|;
    WholeIsAll(cs);
    EncodesToNothing(cs);
    LoadCut(kind, true, cs, n);
    assert cs[..|cs|] == cs && EncodeAll(cs)[..n] == EncodeAll(cs);
  }

  // ------------------------------------------------------------------- state

  /** Command lookup, execution and the empty dataset. */
  datatype World<!D> = World(kind: Lookup, exec: Exec<D>, empty: D)

  predicate Sane<D>(w: World<D>) {
    KnowsMulti(w.kind) && w.kind("SELECT").Plain?
  }

  datatype Mode = Off | WaitRewrite | On

  datatype Phase = Saving | Asked | Acked | Finished | Failed

  /** A rewrite in progress. `base` and `since` name the commands behind the bytes: the dump of the
      dataset at the fork, and what was fed since. */
  datatype Rewrite = Rewrite(phase: Phase, snapshot: string, diff: string, pipe: string, pending: string,
                             stopped: bool, toParent: bool, toChild: bool, tmp: string,
                             base: seq<Command>, since: seq<Command>)

  /** `log` names the commands whose text is file ++ buf; inBlock, that a transaction is being
      executed whose MULTI has been fed. */
  datatype Server<D> = Server(data: D, file: string, buf: string, selectedDb: Option<nat>, mode: Mode,
                              rewrite: Option<Rewrite>, log: seq<Command>, inBlock: bool)

  datatype Step =
    | Feed(db: nat, cmds: seq<Command>)   // a write command, as it is to be logged
    | Begin(db: nat)                      // MULTI is fed before the first write command of a transaction
    | Commit(db: nat)                     // EXEC is fed after the last
    | Flush(n: nat, undone: bool)         // n bytes reach the disk, or are truncated away again
    | Fork(base: seq<Command>)
    | StartAof
    | StopAof
    | During(pipe: PipeStep)              // something that concerns the running rewrite

  datatype PipeStep =
    | ParentSends(n: nat)
    | ChildReads(n: nat)
    | ChildAsks
    | ParentAcks(sent: bool)
    | ChildSeesAck
    | ChildFinishes
    | ChildDies
    | Done(written: bool, renamed: bool)

  predicate Loggable(kind: Lookup, cmds: seq<Command>) {
    AllPlain(kind, cmds) && forall i | 0 <= i < |cmds| :: !IsSelect(cmds[i])
  }

  /** The log gets a SELECT whenever the command's database is not the one selected last. */
  function Fed(selected: Option<nat>, db: nat, cmds: seq<Command>): seq<Command> {
    if selected == Some(db) then cmds else [Select(db)] + cmds
  }

  ghost predicate Enabled<D(!new)>(w: World<D>, s: Server<D>, step: Step) {
    match step
    case Feed(db, cmds) => db <= LONG_MAX && Loggable(w.kind, cmds)
    case Begin(db) => db <= LONG_MAX && !s.inBlock
    case Commit(db) => db <= LONG_MAX && s.inBlock
    case Flush(n, undone) => s.mode != Off && n <= |s.buf|
    case Fork(base) =>
      // The dump rebuilds the dataset it was taken from.
      s.rewrite.None? && AllPlain(w.kind, base) && Replay(w.exec, w.empty, 0, base).0 == s.data
    case StartAof => s.mode.Off?
    case StopAof => !s.mode.Off?
    case During(p) => s.rewrite.Some? && Possible(s.rewrite.value, p)
  }

  predicate Possible(r: Rewrite, p: PipeStep) {
    match p
    case ParentSends(n) => !r.stopped && n <= |r.pending|
    case ChildReads(n) => n <= |r.pipe| && (r.phase.Saving? || r.phase.Acked?)
    case ChildAsks => r.phase.Saving?
    case ParentAcks(sent) => r.toParent
    case ChildSeesAck => r.phase.Asked? && r.toChild
    case ChildFinishes => r.phase.Acked? && r.pipe == ""
    case ChildDies => !r.phase.Finished?
    case Done(_, _) => r.phase.Finished? || r.phase.Failed?
  }

  function DoFeed<D>(s: Server<D>, db: nat, cmds: seq<Command>): Server<D> {
    if s.mode.Off? then s   // nothing is fed while the log is off
    else
      var cs := Fed(s.selectedDb, db, cmds);
      var text := EncodeAll(cs);
      var u := if s.mode.On? then s.(buf := s.buf + text, log := s.log + cs) else s;
      u.(selectedDb := Some(db),
         rewrite := if s.rewrite.None? then None else Some(Collect(s.rewrite.value, text, cs)))
  }

  function Collect(r: Rewrite, text: string, cs: seq<Command>): Rewrite {
    r.(pending := r.pending + text, since := r.since + cs)
  }

  function DoFlush<D>(s: Server<D>, n: nat, undone: bool): Server<D>
    requires n <= |s.buf|
  {
    if undone && n < |s.buf| then s else s.(file := s.file + s.buf[..n], buf := s.buf[n..])
  }

  /** The child has exited: append what it did not get, move its file into place. */
  function DoDone<D>(s: Server<D>, r: Rewrite, written: bool, renamed: bool): Server<D> {
    if !r.phase.Finished? || !written || !renamed then s.(rewrite := None)
    else if s.mode.Off? then s.(rewrite := None, file := r.tmp + r.pending)
    else s.(rewrite := None, file := r.tmp + r.pending, buf := "", selectedDb := None, mode := On,
            log := r.base + r.since)
  }

  function Exchange(r: Rewrite, p: PipeStep): Rewrite
    requires Possible(r, p)
  {
    match p
    case ParentSends(n) => r.(pipe := r.pipe + r.pending[..n], pending := r.pending[n..])
    case ChildReads(n) => r.(diff := r.diff + r.pipe[..n], pipe := r.pipe[n..])
    case ChildAsks => r.(phase := Asked, toParent := true)
    case ParentAcks(sent) => r.(stopped := true, toParent := false, toChild := sent)
    case ChildSeesAck => r.(phase := Acked, toChild := false)
    case ChildFinishes => r.(phase := Finished, tmp := r.snapshot + r.diff)
    case ChildDies => r.(phase := Phase.Failed)
    case Done(_, _) => r
  }

  ghost function Next<D(!new)>(w: World<D>, s: Server<D>, step: Step): Server<D>
    requires Enabled(w, s, step)
  {
    match step
    case Feed(db, cmds) => DoFeed(s.(data := Replay(w.exec, s.data, db, cmds).0), db, cmds)
    case Begin(db) => DoFeed(s.(inBlock := true), db, [["MULTI"]])
    case Commit(db) => DoFeed(s.(inBlock := false), db, [["EXEC"]])
    case Flush(n, undone) => DoFlush(s, n, undone)
    case Fork(base) =>
      s.(selectedDb := None,
         rewrite := Some(Rewrite(Saving, EncodeAll(base), "", "", "", false, false, false, "", base, [])))
    case StartAof => s.(mode := WaitRewrite, rewrite := None)
    case StopAof => s.(mode := Off, selectedDb := None, rewrite := None)
    case During(p) =>
      if p.Done? then DoDone(s, s.rewrite.value, p.written, p.renamed)
      else s.(rewrite := Some(Exchange(s.rewrite.value, p)))
  }

  // ------------------------------------------------------------ the parent's side

  /** The buffers feedAppendOnlyFile appends to. */
  class Feeder {
    var mode: Mode
    var selectedDb: Option<nat>
    var buf: string
    var childRunning: bool
    const diff: RewriteBuffer

    constructor (mode: Mode)
      ensures this.mode == mode && selectedDb == None && buf == "" && !childRunning
      ensures fresh(diff) && diff.Valid() && diff.blocks == []
    {
      this.mode, selectedDb, buf, childRunning := mode, None, "", false;
      diff := new RewriteBuffer();
    }

    /** Both buffers grow by the same text, of which DoFeed is the meaning. */
    method FeedAppendOnlyFile(db: nat, cmds: seq<Command>)
      requires diff.Valid()
      modifies `selectedDb, `buf, diff`blocks
      ensures diff.Valid() && selectedDb == Some(db)
      ensures var text := EncodeAll(Fed(old(selectedDb), db, cmds));
              && buf == old(buf) + (if mode.On? then text else "")
              && Concat(diff.blocks) == old(Concat(diff.blocks)) + (if childRunning then text else "")
    {
      hide Encode;
      var text := "";
      if selectedDb != Some(db) {
        text := CatGenericCommand(text, Select(db));
        selectedDb := Some(db);
      }
      ghost var all := Fed(old(selectedDb), db, cmds);
      assert [Select(db)][1..] == [] && EncodeAll([Select(db)]) == Encode(Select(db)) + "";
      EncodeAllAppend([Select(db)], cmds);
      assert text + EncodeAll(cmds) == EncodeAll(all);
      var i := 0;
      while i < |cmds|
        invariant 0 <= i <= |cmds| && text + EncodeAll(cmds[i..]) == EncodeAll(all)
        invariant selectedDb == Some(db) && buf == old(buf) && diff.blocks == old(diff.blocks)
      {
        EncodeMore(text, cmds, i);
        text := CatGenericCommand(text, cmds[i]);
        i := i + 1;
      }
      assert cmds[i..] == [] && text + "" == text;
      if mode.On? { buf := buf + text; }
      if childRunning { diff.Append(text); }
    }
  }

  lemma EncodeMore(text: string, cmds: seq<Command>, i: nat)
    requires i < |cmds|
    ensures text + EncodeAll(cmds[i..]) == text + Encode(cmds[i]) + EncodeAll(cmds[i + 1..])
  {
    hide Encode;
    assert cmds[i..][1..] == cmds[i + 1..];
    assert text + (Encode(cmds[i]) + EncodeAll(cmds[i + 1..])) == text + Encode(cmds[i]) + EncodeAll(cmds[i + 1..]);
  }

  // --------------------------------------------------------------- invariant

  /** Running the commands of cs, those in an open MULTI included, gives the current dataset, and the
      server knows which database that selects. */
  ghost predicate Rebuilds<D(!new)>(w: World<D>, s: Server<D>, cs: seq<Command>) {
    && Known(w.kind, cs)
    && var p := PlayAll(w.kind, NOTHING, cs);
    && Replay(w.exec, w.empty, 0, All(p)).0 == s.data && (p.open ==> s.inBlock)
    && (s.selectedDb.Some? ==> Replay(w.exec, w.empty, 0, All(p)).1 == s.selectedDb.value)
  }

  ghost predicate LogOk<D(!new)>(w: World<D>, s: Server<D>) {
    s.mode.On? ==> s.file + s.buf == EncodeAll(s.log) && Rebuilds(w, s, s.log)
  }

  /** Bytes fed since the fork are, in order, what the child has, what is in the pipe, and what the
      parent still holds; after the acknowledgement the parent sends no more. */
  ghost predicate RewriteOk<D(!new)>(w: World<D>, s: Server<D>) {
    s.rewrite.Some? ==>
      var r := s.rewrite.value;
      && r.snapshot == EncodeAll(r.base)
      && r.diff + r.pipe + r.pending == EncodeAll(r.since)
      && (r.toChild || r.phase.Acked? || r.phase.Finished? ==> r.stopped)
      && (r.phase.Finished? ==> r.tmp == r.snapshot + r.diff && r.pipe == "")
      && (r.since == [] ==> s.selectedDb.None?)
      && (!s.mode.Off? ==> Rebuilds(w, s, r.base + r.since))
  }

  ghost predicate Inv<D(!new)>(w: World<D>, s: Server<D>) {
    Sane(w) && LogOk(w, s) && RewriteOk(w, s)
  }

  lemma PlainSelect(kind: Lookup, db: nat)
    requires db <= LONG_MAX && kind("SELECT").Plain?
    ensures AllPlain(kind, [Select(db)]) && IsSelect(Select(db)) && Atoi(Select(db)[1]) == db
  {
    LongFits(db);
    AtoiOfDec(db, "");
    assert Dec(db) + "" == Dec(db);
  }

  /** What is fed executes the commands in their own database, whatever was selected before. */
  lemma FedRuns<D>(w: World<D>, d: D, db0: int, selected: Option<nat>, db: nat, cmds: seq<Command>)
    requires Sane(w) && db <= LONG_MAX && Loggable(w.kind, cmds) && (selected == Some(db) ==> db0 == db)
    ensures Replay(w.exec, d, db0, Fed(selected, db, cmds)) == (Replay(w.exec, d, db, cmds).0, db)
    ensures AllPlain(w.kind, Fed(selected, db, cmds))
  {
    hide Atoi, Dec, Printable;
    PlainSelect(w.kind, db);
    ReplayInDb(w.exec, d, db, cmds);
    if selected != Some(db) {
      assert ([Select(db)] + cmds)[1..] == cmds;
      assert [Select(db)][0] == Select(db);
    }
  }

  /** More plain commands are run after the others, now or when the MULTI is closed. */
  lemma PlainPlays(kind: Lookup, cs: seq<Command>, more: seq<Command>)
    requires Known(kind, cs) && AllPlain(kind, more)
    ensures Known(kind, cs + more)
    ensures var p, q := PlayAll(kind, NOTHING, cs), PlayAll(kind, NOTHING, cs + more);
            q.open == p.open && All(q) == All(p) + more
  {
    hide PlayAll, Printable;
    var p := PlayAll(kind, NOTHING, cs);
    PlayPlain(kind, p, more);
    PlayAppend(kind, NOTHING, cs, more);
    assert p.done + (p.queued + more) == p.done + p.queued + more;
    assert !p.open ==> p.queued == [] && p.done + more + [] == p.done + [] + more;
  }

  lemma PlainRebuilds<D(!new)>(w: World<D>, s: Server<D>, t: Server<D>, cs: seq<Command>, more: seq<Command>)
    requires Rebuilds(w, s, cs) && AllPlain(w.kind, more) && t.inBlock == s.inBlock
    requires var r := Replay(w.exec, w.empty, 0, All(PlayAll(w.kind, NOTHING, cs)));
             var u := Replay(w.exec, r.0, r.1, more);
             t.data == u.0 && (t.selectedDb.Some? ==> t.selectedDb.value == u.1)
    ensures Rebuilds(w, t, cs + more)
  {
    hide Known, AllPlain, Replay, PlayAll, All;
    PlainPlays(w.kind, cs, more);
    ReplayAppend(w.exec, w.empty, 0, All(PlayAll(w.kind, NOTHING, cs)), more);
  }

  lemma FeedRebuilds<D(!new)>(w: World<D>, s: Server<D>, db: nat, cmds: seq<Command>, cs: seq<Command>)
    requires Sane(w) && db <= LONG_MAX && Loggable(w.kind, cmds) && Rebuilds(w, s, cs)
    ensures var t := s.(data := Replay(w.exec, s.data, db, cmds).0, selectedDb := Some(db));
            Rebuilds(w, t, cs + Fed(s.selectedDb, db, cmds))
  {
    hide Printable, PlayAll, Replay, Loggable;
    var (d, db0) := Replay(w.exec, w.empty, 0, All(PlayAll(w.kind, NOTHING, cs)));
    FedRuns(w, d, db0, s.selectedDb, db, cmds);
    PlainRebuilds(w, s, s.(data := Replay(w.exec, s.data, db, cmds).0, selectedDb := Some(db)), cs,
      Fed(s.selectedDb, db, cmds));
  }

  /** MULTI and EXEC run nothing new, and keep track of the block. */
  lemma MarkRebuilds<D(!new)>(w: World<D>, s: Server<D>, db: nat, begin: bool, cs: seq<Command>)
    requires Sane(w) && db <= LONG_MAX && Rebuilds(w, s, cs) && (begin ==> !s.inBlock)
    ensures var mark := [if begin then ["MULTI"] else ["EXEC"]];
            Rebuilds(w, s.(inBlock := begin, selectedDb := Some(db)), cs + Fed(s.selectedDb, db, mark))
  {
    hide Replay;
    var mark := [if begin then ["MULTI"] else ["EXEC"]];
    var front := Fed(s.selectedDb, db, []);
    var t := s.(selectedDb := Some(db));
    FeedRebuilds(w, s, db, [], cs);
    NothingRuns(w.exec, s.data, db);
    assert Fed(s.selectedDb, db, mark) == front + mark && cs + (front + mark) == cs + front + mark;
    MarkPlays(w, t, begin, cs + front);
  }

  lemma NothingRuns<D>(exec: Exec<D>, d: D, db: int)
    ensures Replay(exec, d, db, []) == (d, db)
  {
  }

  lemma MarkPlays<D(!new)>(w: World<D>, s: Server<D>, begin: bool, cs: seq<Command>)
    requires Sane(w) && Rebuilds(w, s, cs) && (begin ==> !s.inBlock)
    ensures Rebuilds(w, s.(inBlock := begin), cs + [if begin then ["MULTI"] else ["EXEC"]])
  {
    hide Replay, PlayAll;
    var c := if begin then ["MULTI"] else ["EXEC"];
    var p := PlayAll(w.kind, NOTHING, cs);
    assert Known(w.kind, [c]);
    PlayAppend(w.kind, NOTHING, cs, [c]);
    PlayOne(w.kind, p, c);
    assert All(Play(w.kind, p, c)) == All(p);
  }

  lemma PlayOne(kind: Lookup, p: Played, c: Command)
    requires Known(kind, [c])
    ensures c != [] && PlayAll(kind, p, [c]) == Play(kind, p, c)
  {
    assert [c][0] == c && [c][1..] == [];
  }

  /** Feeding keeps the invariant if what is fed rebuilds the new state. */
  lemma FeedInv<D(!new)>(w: World<D>, s: Server<D>, a: Server<D>, db: nat, cmds: seq<Command>)
    requires Inv(w, s) && a == s.(data := a.data, inBlock := a.inBlock)
    requires forall cs | Rebuilds(w, s, cs) :: Rebuilds(w, a.(selectedDb := Some(db)), cs + Fed(s.selectedDb, db, cmds))
    ensures Inv(w, DoFeed(a, db, cmds))
  {
    hide Printable, Encode, EncodeAll, Rebuilds;
    if !s.mode.Off? {
      var cs := Fed(s.selectedDb, db, cmds);
      var t := DoFeed(a, db, cmds);
      if s.mode.On? {
        EncodeAllAppend(s.log, cs);
        assert s.file + (s.buf + EncodeAll(cs)) == (s.file + s.buf) + EncodeAll(cs);
        SameRebuilds(w, a.(selectedDb := Some(db)), t, s.log + cs);
      }
      if s.rewrite.Some? {
        var r := s.rewrite.value;
        assert r.base + r.since + cs == r.base + (r.since + cs);
        EncodeAllAppend(r.since, cs);
        assert r.diff + r.pipe + (r.pending + EncodeAll(cs)) == r.diff + r.pipe + r.pending + EncodeAll(cs);
        SameRebuilds(w, a.(selectedDb := Some(db)), t, r.base + (r.since + cs));
      }
    }
  }

  lemma SameRebuilds<D(!new)>(w: World<D>, s: Server<D>, t: Server<D>, cs: seq<Command>)
    requires Rebuilds(w, s, cs) && t.data == s.data && t.inBlock == s.inBlock && t.selectedDb == s.selectedDb
    ensures Rebuilds(w, t, cs)
  {
  }

  lemma ExchangeInv<D(!new)>(w: World<D>, s: Server<D>, p: PipeStep)
    requires Inv(w, s) && s.rewrite.Some? && Possible(s.rewrite.value, p) && !p.Done?
    ensures Inv(w, s.(rewrite := Some(Exchange(s.rewrite.value, p))))
  {
    hide EncodeAll, Rebuilds, Exchange, Possible;
    var r := s.rewrite.value;
    var q := Exchange(r, p);
    ExchangeKeeps(r, p);
    if !s.mode.Off? { SameRebuilds(w, s, s.(rewrite := Some(q)), r.base + r.since); }
    if s.mode.On? { SameRebuilds(w, s, s.(rewrite := Some(q)), s.log); }
  }

  /** No byte is lost or reordered between the two processes. */
  lemma ExchangeKeeps(r: Rewrite, p: PipeStep)
    requires Possible(r, p) && !p.Done?
    requires r.toChild || r.phase.Acked? || r.phase.Finished? ==> r.stopped
    requires r.phase.Finished? ==> r.tmp == r.snapshot + r.diff && r.pipe == ""
    ensures var q := Exchange(r, p);
            && q.snapshot == r.snapshot && q.base == r.base && q.since == r.since
            && q.diff + q.pipe + q.pending == r.diff + r.pipe + r.pending
            && (q.toChild || q.phase.Acked? || q.phase.Finished? ==> q.stopped)
            && (q.phase.Finished? ==> q.tmp == q.snapshot + q.diff && q.pipe == "")
  {
    match p {
      case ParentSends(n) => assert r.pending == r.pending[..n] + r.pending[n..];
      case ChildReads(n) => assert r.pipe == r.pipe[..n] + r.pipe[n..];
      case _ =>
    }
    var q := Exchange(r, p);
    assert q.diff + q.pipe + q.pending == r.diff + r.pipe + r.pending;
  }

  /** The file the parent moves into place is the dump followed by everything fed since the fork. */
  lemma DoneFile<D(!new)>(w: World<D>, s: Server<D>)
    requires RewriteOk(w, s) && s.rewrite.Some? && s.rewrite.value.phase.Finished?
    ensures var r := s.rewrite.value;
            r.tmp + r.pending == EncodeAll(r.base) + EncodeAll(r.since) == EncodeAll(r.base + r.since)
  {
    hide Encode, EncodeAll, Replay;
    var r := s.rewrite.value;
    EncodeAllAppend(r.base, r.since);
    assert r.diff + r.pipe + r.pending == r.diff + r.pending;
    assert r.snapshot + r.diff + r.pending == r.snapshot + (r.diff + r.pending);
  }

  lemma FeedStepInv<D(!new)>(w: World<D>, s: Server<D>, step: Step)
    requires Inv(w, s) && Enabled(w, s, step) && (step.Feed? || step.Begin? || step.Commit?)
    ensures Inv(w, Next(w, s, step))
  {
    hide Printable, PlayAll, Replay, Loggable, LogOk, RewriteOk, Rebuilds;
    var db := step.db;
    var cmds := if step.Feed? then step.cmds else [if step.Begin? then ["MULTI"] else ["EXEC"]];
    var a := if step.Feed? then s.(data := Replay(w.exec, s.data, db, cmds).0) else s.(inBlock := step.Begin?);
    forall cs | Rebuilds(w, s, cs) ensures Rebuilds(w, a.(selectedDb := Some(db)), cs + Fed(s.selectedDb, db, cmds)) {
      if step.Feed? { FeedRebuilds(w, s, db, cmds, cs); } else { MarkRebuilds(w, s, db, step.Begin?, cs); }
    }
    FeedInv(w, s, a, db, cmds);
  }

  lemma ForkInv<D(!new)>(w: World<D>, s: Server<D>, base: seq<Command>)
    requires Inv(w, s) && Enabled(w, s, Fork(base))
    ensures Inv(w, Next(w, s, Fork(base)))
  {
    hide Encode, Printable, Replay;
    PlayPlain(w.kind, NOTHING, base);
    assert base + [] == base && [] + base == base;
    assert All(PlayAll(w.kind, NOTHING, base)) == base;
  }

  lemma StepInv<D(!new)>(w: World<D>, s: Server<D>, step: Step)
    requires Inv(w, s) && Enabled(w, s, step)
    ensures Inv(w, Next(w, s, step))
  {
    hide EncodeAll, Printable, Loggable, Replay, PlayAll;
    match step
    case Flush(n, undone) =>
      assert s.buf == s.buf[..n] + s.buf[n..];
      assert s.file + s.buf[..n] + s.buf[n..] == s.file + s.buf;
    case Fork(base) => ForkInv(w, s, base);
    case StartAof =>
    case StopAof =>
    case During(p) =>
      if !p.Done? {
        ExchangeInv(w, s, p);
      } else if s.rewrite.value.phase.Finished? {
        DoneFile(w, s);
        assert forall f: string :: f + "" == f;
      }
    case _ => FeedStepInv(w, s, step);
  }

  // -------------------------------------------------------------------- runs

  ghost predicate CanRun<D(!new)>(w: World<D>, s: Server<D>, steps: seq<Step>)
    decreases |steps|
  {
    steps == [] || (Enabled(w, s, steps[0]) && CanRun(w, Next(w, s, steps[0]), steps[1..]))
  }

  ghost function End<D(!new)>(w: World<D>, s: Server<D>, steps: seq<Step>): Server<D>
    requires CanRun(w, s, steps)
    decreases |steps|
  {
    if steps == [] then s else End(w, Next(w, s, steps[0]), steps[1..])
  }

  lemma {:induction false} RunInv<D(!new)>(w: World<D>, s: Server<D>, steps: seq<Step>)
    requires Inv(w, s) && CanRun(w, s, steps)
    ensures Inv(w, End(w, s, steps))
    decreases |steps|
  {
    hide Enabled, Next, Inv;
    if steps != [] {
      StepInv(w, s, steps[0]);
      RunInv(w, Next(w, s, steps[0]), steps[1..]);
    }
  }

  /** Loading gives a dataset. */
  ghost predicate Gives<D(!new)>(w: World<D>, o: Outcome, d: D) {
    if o.EmptyFile? then d == w.empty else o.Loaded? && Replay(w.exec, w.empty, 0, o.executed).0 == d
  }

  /** Whether the log ends inside a MULTI. */
  predicate EndsInside(kind: Lookup, cs: seq<Command>)
    requires Known(kind, cs)
  {
    PlayAll(kind, NOTHING, cs).open
  }

  /** A log that ends outside MULTI loads completely and gives the dataset; otherwise the loader takes
      it for a truncated one, and runs all but the commands of the open block. */
  lemma LoadGives<D(!new)>(w: World<D>, s: Server<D>, cs: seq<Command>)
    requires Rebuilds(w, s, cs)
    ensures var p, o := PlayAll(w.kind, NOTHING, cs), Load(w.kind, true, EncodeAll(cs));
            && (o.Truncated? <==> EndsInside(w.kind, cs)) && (EndsInside(w.kind, cs) ==> s.inBlock)
            && (!EndsInside(w.kind, cs) ==> Gives(w, o, s.data))
            && (o.Truncated? ==> o.executed == p.done && Replay(w.exec, w.empty, 0, o.executed + p.queued).0 == s.data)
  {
    hide EncodeAll, Load, PlayAll, Printable, Replay;
    LoadWhole(w.kind, cs);
    var p := PlayAll(w.kind, NOTHING, cs);
    if cs == [] {
      NothingPlayed(w.kind);
      NothingRuns(w.exec, w.empty, 0);
    } else if !p.open {
      assert Proper(p) && p.done + [] == p.done;
    }
  }

  lemma NothingPlayed(kind: Lookup)
    ensures PlayAll(kind, NOTHING, []) == NOTHING
  {
  }

  /** After any run, a server whose log is on finds its dataset by loading what it wrote and what it
      still buffers, if and only if that does not end inside MULTI, which it does only while a
      transaction is being executed. What is on disk loads as well, and runs the first of these
      commands. */
  lemma LogRebuildsDataset<D(!new)>(w: World<D>, s: Server<D>, steps: seq<Step>)
    requires Inv(w, s) && CanRun(w, s, steps) && End(w, s, steps).mode.On?
    ensures var t := End(w, s, steps);
            var all, disk := Load(w.kind, true, t.file + t.buf), Load(w.kind, true, t.file);
            && Known(w.kind, t.log) && t.file + t.buf == EncodeAll(t.log)
            && (all.Truncated? <==> EndsInside(w.kind, t.log)) && (EndsInside(w.kind, t.log) ==> t.inBlock)
            && (!EndsInside(w.kind, t.log) ==> Gives(w, all, t.data))
            && if t.file == "" then disk == EmptyFile
               else
                 && (all.Loaded? || all.Truncated?) && (disk.Loaded? || disk.Truncated?)
                 && disk.executed <= all.executed
  {
    hide EncodeAll, Load, Enabled, Next, Replay, CanRun, End, Printable, PlayAll;
    RunInv(w, s, steps);
    var t := End(w, s, steps);
    LoadGives(w, t, t.log);
    assert (t.file + t.buf)[..|t.file|] == t.file;
    DiskPrefix(w.kind, t.log, |t.file|);
  }

  /** An empty server with an empty log, from which runs can start. */
  lemma FreshInv<D(!new)>(w: World<D>)
    requires Sane(w)
    ensures Inv(w, Server(w.empty, "", "", None, On, None, [], false))
  {
    assert All(NOTHING) == [] && "" + "" == "";
  }

  /** Loaded while a transaction is being executed, a log loses its commands: here, the only one. */
  lemma InsideTransaction(kind: Lookup, c: Command)
    requires KnowsMulti(kind) && AllPlain(kind, [c])
    ensures var o := Load(kind, true, EncodeAll([["MULTI"], c]));
            o.Truncated? && o.executed == []
  {
    hide EncodeAll, Load, PlayAll;
    var m: Command := ["MULTI"];
    assert [m, c] == [m] + [c] && Known(kind, [m]) && Known(kind, [c]);
    PlayAppend(kind, NOTHING, [m], [c]);
    PlayOne(kind, NOTHING, m);
    PlayPlain(kind, Play(kind, NOTHING, m), [c]);
    LoadWhole(kind, [m, c]);
  }

  /** Cutting a log loses only the last of the commands that are run. */
  lemma DiskPrefix(kind: Lookup, cs: seq<Command>, n: nat)
    requires Known(kind, cs) && n <= |EncodeAll(cs)|
    ensures var disk, all := Load(kind, true, EncodeAll(cs)[..n]), Load(kind, true, EncodeAll(cs));
            if n == 0 then disk == EmptyFile
            else (all.Loaded? || all.Truncated?) && (disk.Loaded? || disk.Truncated?) && disk.executed <= all.executed
  {
    hide EncodeAll, Load, WholeCommands, Printable, PlayAll;
    LoadWhole(kind, cs);
    LoadCut(kind, true, cs, n);
    var k := WholeCommands(cs, n);
    assert cs == cs[..k] + cs[k..];
    PlayAppend(kind, NOTHING, cs[..k], cs[k..]);
    DoneGrows(kind, PlayAll(kind, NOTHING, cs[..k]), cs[k..]);
    EncodesToNothing(cs);
  }

  // --------------------------------------------------------- a whole rewrite

  /** Steps that neither start nor end a rewrite, nor switch the log on or off. */
  predicate Quiet(step: Step) {
    step.Feed? || step.Begin? || step.Commit? || step.Flush? || (step.During? && !step.pipe.Done?)
  }

  /** What a step feeds, and the database then selected. */
  function StepFed(selected: Option<nat>, step: Step): (seq<Command>, Option<nat>) {
    match step
    case Feed(db, cmds) => (Fed(selected, db, cmds), Some(db))
    case Begin(db) => (Fed(selected, db, [["MULTI"]]), Some(db))
    case Commit(db) => (Fed(selected, db, [["EXEC"]]), Some(db))
    case _ => ([], selected)
  }

  /** Everything fed by these steps, in order. */
  function AllFed(selected: Option<nat>, steps: seq<Step>): seq<Command>
    decreases |steps|
  {
    if steps == [] then []
    else
      var (cs, db) := StepFed(selected, steps[0]);
      cs + AllFed(db, steps[1..])
  }

  lemma SinceStep<D(!new)>(w: World<D>, s: Server<D>, step: Step)
    requires Enabled(w, s, step) && s.rewrite.Some? && !s.mode.Off? && Quiet(step)
    ensures var t := Next(w, s, step);
            && !t.mode.Off? && t.rewrite.Some? && t.rewrite.value.base == s.rewrite.value.base
            && t.rewrite.value.since == s.rewrite.value.since + StepFed(s.selectedDb, step).0
            && t.selectedDb == StepFed(s.selectedDb, step).1
  {
    hide EncodeAll, Replay, Loggable, Printable, Fed;
    assert s.rewrite.value.since + [] == s.rewrite.value.since;
  }

  lemma {:induction false} SinceFork<D(!new)>(w: World<D>, s: Server<D>, steps: seq<Step>)
    requires CanRun(w, s, steps) && s.rewrite.Some? && !s.mode.Off?
    requires forall i | 0 <= i < |steps| :: Quiet(steps[i])
    ensures var t := End(w, s, steps);
            && !t.mode.Off? && t.rewrite.Some? && t.rewrite.value.base == s.rewrite.value.base
            && t.rewrite.value.since == s.rewrite.value.since + AllFed(s.selectedDb, steps)
    decreases |steps|
  {
    hide Next, Enabled, Quiet, StepFed;
    var since := s.rewrite.value.since;
    if steps == [] {
      assert since + [] == since;
    } else {
      var (cs, db) := StepFed(s.selectedDb, steps[0]);
      SinceStep(w, s, steps[0]);
      SinceFork(w, Next(w, s, steps[0]), steps[1..]);
      assert since + cs + AllFed(db, steps[1..]) == since + (cs + AllFed(db, steps[1..]));
    }
  }

  /** A background rewrite loses, repeats and reorders nothing: whatever the interleaving of feeds,
      partial pipe writes, child reads and the handshake, the file moved into place is the dump
      followed by exactly the bytes fed since the fork, and loading it gives the current dataset if
      and only if it does not end inside MULTI. */
  lemma NothingLost<D(!new)>(w: World<D>, s: Server<D>, base: seq<Command>, steps: seq<Step>)
    requires Inv(w, s) && !s.mode.Off? && Enabled(w, s, Fork(base))
    requires forall i | 0 <= i < |steps| :: Quiet(steps[i])
    requires CanRun(w, Next(w, s, Fork(base)), steps)
    requires var t := End(w, Next(w, s, Fork(base)), steps);
             t.rewrite.Some? && t.rewrite.value.phase.Finished?
    ensures var t := End(w, Next(w, s, Fork(base)), steps);
            var u := DoDone(t, t.rewrite.value, true, true);
            var cs, o := base + AllFed(None, steps), Load(w.kind, true, u.file);
            && u.mode.On? && u.buf == "" && u.data == t.data
            && u.file == EncodeAll(base) + EncodeAll(AllFed(None, steps))
            && Known(w.kind, cs) && (o.Truncated? <==> EndsInside(w.kind, cs)) && (EndsInside(w.kind, cs) ==> u.inBlock)
            && (!EndsInside(w.kind, cs) ==> Gives(w, o, u.data))
  {
    hide Encode, EncodeAll, Load, Enabled, Printable, Replay, Loggable, PlayAll;
    var f := Next(w, s, Fork(base));
    StepInv(w, s, Fork(base));
    RunInv(w, f, steps);
    SinceFork(w, f, steps);
    var t := End(w, f, steps);
    DoneFile(w, t);
    LoadGives(w, t, t.rewrite.value.base + t.rewrite.value.since);
    assert [] + AllFed(None, steps) == AllFed(None, steps);
  }

  /** A flush that is cut short either keeps what reached the disk or takes it back; no byte is lost. */
  lemma FlushKeepsBytes<D(!new)>(w: World<D>, s: Server<D>, n: nat, undone: bool)
    requires Enabled(w, s, Flush(n, undone))
    ensures var t := Next(w, s, Flush(n, undone));
            && t.file + t.buf == s.file + s.buf && t.log == s.log && t.data == s.data
            && |t.file| == |s.file| + if undone && n < |s.buf| then 0 else n
  {
    assert s.buf == s.buf[..n] + s.buf[n..];
  }

  /** A rewrite that failed, could not be written or could not be moved into place leaves the log as it
      was, and the next one can start. */
  lemma FailedLeavesLog<D(!new)>(w: World<D>, s: Server<D>, written: bool, renamed: bool)
    requires Inv(w, s) && Enabled(w, s, During(Done(written, renamed)))
    ensures var t := Next(w, s, During(Done(written, renamed)));
            && t.rewrite.None? && t.data == s.data
            && (s.rewrite.value.phase.Failed? || !written || !renamed ==> t == s.(rewrite := None))
            && (s.rewrite.value.phase.Finished? && written && renamed && !s.mode.Off? ==>
                  t.mode.On? && t.file == EncodeAll(t.log) && t.buf == "" && t.selectedDb.None?)
  {
    hide EncodeAll, Rebuilds;
    if s.rewrite.value.phase.Finished? { DoneFile(w, s); }
  }

  lemma OneExchange<D(!new)>(w: World<D>, s: Server<D>, p: PipeStep, rest: seq<Step>)
    requires s.rewrite.Some? && Possible(s.rewrite.value, p) && !p.Done?
    requires CanRun(w, s.(rewrite := Some(Exchange(s.rewrite.value, p))), rest)
    ensures var steps, t := [During(p)] + rest, s.(rewrite := Some(Exchange(s.rewrite.value, p)));
            CanRun(w, s, steps) && End(w, s, steps) == End(w, t, rest)
  {
    hide Possible, Exchange;
    assert ([During(p)] + rest)[1..] == rest;
  }

  /** Such rewrites exist, from every server whose log is not off: the handshake can go through at once. */
  lemma RewriteCompletes<D(!new)>(w: World<D>, s: Server<D>, base: seq<Command>) returns (steps: seq<Step>)
    requires Enabled(w, s, Fork(base)) && !s.mode.Off?
    ensures forall i | 0 <= i < |steps| :: Quiet(steps[i])
    ensures CanRun(w, Next(w, s, Fork(base)), steps)
    ensures var t := End(w, Next(w, s, Fork(base)), steps);
            t.rewrite.Some? && t.rewrite.value.phase.Finished?
  {
    hide EncodeAll, Replay, AllPlain, CanRun, End;
    var f := Next(w, s, Fork(base));
    var a := Exchange(f.rewrite.value, ChildAsks);
    var b := Exchange(a, ParentAcks(true));
    var c := Exchange(b, ChildSeesAck);
    NoSteps(w, f.(rewrite := Some(Exchange(c, ChildFinishes))));
    OneExchange(w, f.(rewrite := Some(c)), ChildFinishes, []);
    steps := [During(ChildFinishes)] + [];
    OneExchange(w, f.(rewrite := Some(b)), ChildSeesAck, steps);
    steps := [During(ChildSeesAck)] + steps;
    OneExchange(w, f.(rewrite := Some(a)), ParentAcks(true), steps);
    steps := [During(ParentAcks(true))] + steps;
    OneExchange(w, f, ChildAsks, steps);
    steps := [During(ChildAsks)] + steps;
  }

  lemma NoSteps<D(!new)>(w: World<D>, s: Server<D>)
    ensures CanRun(w, s, []) && End(w, s, []) == s
  {
  }
}
