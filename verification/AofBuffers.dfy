/** The in-memory side of the append only file: the buffer flushed to disk, and the blocks of
    differences sent to a rewriting child. System calls return what the caller of these methods
    supplies. */
module AofBuffers {

  /** The result of one write(2): some bytes, an interruption, or an error. */
  datatype Written = Wrote(n: nat) | Interrupted | Failed

  function Clip(w: Written, len: nat): nat {
    if !w.Wrote? then 0 else if w.n < len then w.n else len
  }

  /** How many of len bytes a series of writes gets out before one fails. */
  function Accepted(results: seq<Written>, len: nat): (n: nat)
    ensures n <= len
  {
    if len == 0 || results == [] || results[0].Failed? then 0
    else Clip(results[0], len) + Accepted(results[1..], len - Clip(results[0], len))
  }

  datatype Fsync = Always | EverySec | No

  /** flushAppendOnlyFile either leaves the process running or exits it. */
  datatype Flushed = Running | Exited

  class Aof {
    var file: string         // contents of the file on disk
    var buf: string          // aof_buf
    var currentSize: nat     // aof_current_size
    var lastWriteOk: bool

    ghost predicate Valid() reads this {
      currentSize == |file|
    }

    constructor (file: string)
      ensures Valid() && this.file == file && this.buf == "" && lastWriteOk
    {
      this.file, this.buf, currentSize, lastWriteOk := file, "", |file|, true;
    }

    /** Retry short and interrupted writes; an error after some bytes reports those bytes. */
    method Write(results: seq<Written>) returns (n: int)
      modifies `file
      ensures var k := Accepted(results, |buf|);
              file == old(file) + buf[..k] && n == if k == 0 && buf != "" then -1 else k
    {
      var done, i := 0, 0;
      while done < |buf|
        invariant 0 <= done <= |buf| && 0 <= i <= |results|
        invariant Accepted(results, |buf|) == done + Accepted(results[i..], |buf| - done)
        invariant file == old(file) + buf[..done]
        decreases |results| - i
      {
        if i == |results| || results[i].Failed? {
          if done > 0 { return done; }
          return -1;
        }
        var k := Clip(results[i], |buf| - done);
        assert results[i..][1..] == results[i + 1..];
        assert buf[..done + k] == buf[..done] + buf[done..done + k];
        file := file + buf[done..done + k];
        done, i := done + k, i + 1;
      }
      return done;
    }

    /** Whatever the system calls do, file ++ buffer is unchanged and the recorded size is the
        file's; when the process goes on, the write counts as good exactly if nothing is left to
        write. `postponed` is the decision to wait for a background fsync. */
    method Flush(results: seq<Written>, truncates: bool, policy: Fsync, postponed: bool) returns (r: Flushed)
      requires Valid()
      modifies this
      ensures postponed || old(buf) == "" ==> r.Running?
      ensures r.Running? ==> Valid() && file + buf == old(file + buf)
      ensures r.Running? && old(buf) != "" && !postponed ==> (lastWriteOk <==> buf == "")
      ensures postponed || old(buf) == "" ==> file == old(file) && buf == old(buf) && lastWriteOk == old(lastWriteOk)
      ensures var k := Accepted(results, |old(buf)|);
              !postponed && old(buf) != "" ==>
                && (r.Exited? <==> k < |old(buf)| && policy.Always?)
                && file == old(file) + if k < |old(buf)| && truncates then "" else old(buf)[..k]
    {
      r := Running;
      if buf == "" || postponed { return; }
      var n := Write(results);
      if n != |buf| {
        if n > 0 && truncates {
          file := file[..currentSize];
          n := -1;
        }
        if policy.Always? { return Exited; }
        lastWriteOk := false;
        if n > 0 {
          assert buf == buf[..n] + buf[n..];
          currentSize, buf := currentSize + n, buf[n..];
        }
        return;
      }
      lastWriteOk := true;
      assert buf[..n] == buf;
      currentSize, buf := currentSize + n, "";
    }
  }

  // ---------------------------------------------------------- rewrite buffer

  const BLOCK_SIZE: nat := 10485760

  function Concat(blocks: seq<string>): string {
    if blocks == [] then "" else blocks[0] + Concat(blocks[1..])
  }

  lemma {:induction false} ConcatAppend(a: seq<string>, b: seq<string>)
    ensures Concat(a + b) == Concat(a) + Concat(b)
  {
    if a == [] {
      assert a + b == b;
    } else {
      assert (a + b)[1..] == a[1..] + b;
      ConcatAppend(a[1..], b);
    }
  }

  lemma ConcatLast(blocks: seq<string>)
    requires blocks != []
    ensures Concat(blocks) == Concat(blocks[..|blocks| - 1]) + blocks[|blocks| - 1]
  {
    var last := |blocks| - 1;
    assert blocks == blocks[..last] + [blocks[last]] && [blocks[last]][1..] == [];
    ConcatAppend(blocks[..last], [blocks[last]]);
  }

  /** A block is its used bytes; its free space is what is left of BLOCK_SIZE. */
  class RewriteBuffer {
    var blocks: seq<string>
    var stopSending: bool

    ghost predicate Valid() reads this {
      forall i | 0 <= i < |blocks| :: |blocks[i]| <= BLOCK_SIZE
    }

    constructor ()
      ensures Valid() && blocks == [] && !stopSending
    {
      blocks, stopSending := [], false;
    }

    /** Append across blocks, filling the last one and allocating as needed. */
    method Append(s: string)
      requires Valid()
      modifies `blocks
      ensures Valid() && Concat(blocks) == old(Concat(blocks)) + s
    {
      var rest := s;
      while rest != ""
        invariant Valid() && Concat(blocks) + rest == old(Concat(blocks)) + s
        decreases |rest|, blocks == [] || |blocks[|blocks| - 1]| == BLOCK_SIZE
      {
        if blocks != [] && |blocks[|blocks| - 1]| < BLOCK_SIZE {
          var last := |blocks| - 1;
          var free := BLOCK_SIZE - |blocks[last]|;
          var n := if free < |rest| then free else |rest|;
          AppendToLast(blocks, rest[..n]);
          assert rest == rest[..n] + rest[n..];
          blocks := blocks[last := blocks[last] + rest[..n]];
          rest := rest[n..];
        } else {
          ConcatAppend(blocks, [""]);
          assert [""][1..] == [];
          blocks := blocks + [""];
        }
      }
    }

    /** Send blocks to the child until it asked to stop, the pipe is full, or nothing is left. */
    method SendToChild(results: seq<Written>) returns (sent: string, writes: nat)
      requires Valid()
      modifies `blocks
      ensures Valid() && sent + Concat(blocks) == old(Concat(blocks))
      ensures stopSending ==> sent == "" && blocks == old(blocks)
      ensures writes <= |sent|
      ensures !stopSending && blocks != [] ==>
                writes == |results| || (writes < |results| && Clip(results[writes], |blocks[0]|) == 0)
    {
      sent, writes := "", 0;
      while !stopSending && blocks != []
        invariant Valid() && writes <= |results| && writes <= |sent| && sent + Concat(blocks) == old(Concat(blocks))
        invariant stopSending ==> sent == "" && blocks == old(blocks)
        decreases |results| - writes, |blocks|
      {
        var block := blocks[0];
        if block != "" {
          if writes == |results| { return; }
          var n := Clip(results[writes], |block|);
          if n == 0 { return; }
          assert block == block[..n] + block[n..];
          assert (sent + block[..n]) + (block[n..] + Concat(blocks[1..])) == sent + (block + Concat(blocks[1..]));
          assert blocks[0 := block[n..]][1..] == blocks[1..];
          sent, blocks, writes := sent + block[..n], blocks[0 := block[n..]], writes + 1;
        }
        if blocks[0] == "" { blocks := blocks[1..]; }
      }
    }

    /** Write all the blocks after the child's file; any short write is a failure. */
    method WriteTo(results: seq<Written>) returns (ok: bool, out: string)
      ensures out <= Concat(blocks)
      ensures ok ==> out == Concat(blocks)
      ensures ok <==> forall i | 0 <= i < |blocks| ::
                        blocks[i] == "" || (i < |results| && Clip(results[i], |blocks[i]|) == |blocks[i]|)
    {
      out := "";
      var i := 0;
      while i < |blocks|
        invariant 0 <= i <= |blocks| && out == Concat(blocks[..i])
        invariant forall j | 0 <= j < i ::
                    blocks[j] == "" || (j < |results| && Clip(results[j], |blocks[j]|) == |blocks[j]|)
      {
        var n := if i < |results| then Clip(results[i], |blocks[i]|) else 0;
        assert blocks[..i + 1][..i] == blocks[..i];
        ConcatLast(blocks[..i + 1]);
        assert blocks == blocks[..i + 1] + blocks[i + 1..];
        ConcatAppend(blocks[..i + 1], blocks[i + 1..]);
        if n != |blocks[i]| {
          out := out + blocks[i][..n];
          return false, out;
        }
        out := out + blocks[i];
        i := i + 1;
      }
      assert blocks[..i] == blocks;
      ok := true;
    }
  }

  lemma AppendToLast(blocks: seq<string>, s: string)
    requires blocks != []
    ensures Concat(blocks[|blocks| - 1 := blocks[|blocks| - 1] + s]) == Concat(blocks) + s
  {
    var last := |blocks| - 1;
    var more := blocks[last := blocks[last] + s];
    ConcatLast(blocks);
    ConcatLast(more);
    assert more[..last] == blocks[..last];
  }
}
