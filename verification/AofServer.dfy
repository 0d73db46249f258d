/**
 The writing side of the append only file, as the server process keeps it: the buffer
 in front of the file, the block list of the rewrite buffer, and the event handlers that
 move bytes between them. Each method is proved against a function on Parent, the
 abstract state used by AofRewrite.
 */
module AofServer {
  import opened Prelude
  import opened AofLog

  const AOF_RW_BUF_BLOCK_SIZE: nat := 10 * 1024 * 1024

  datatype AofState = Off | On | WaitRewrite
  datatype FsyncPolicy = No | EverySec | Always

  /** pending: the bytes of the rewrite buffer; rewriting: an AOF child is running. */
  datatype Parent = Parent(
    state: AofState,
    selectedDb: Option<nat>,
    buf: seq<Octet>,
    pending: seq<Octet>,
    stopSending: bool,
    rewriting: bool,
    file: seq<Octet>)

  const SELECT: Arg := [83, 69, 76, 69, 67, 84]

  function SelectCommand(db: nat): Command {
    [SELECT, Digits(db)]
  }

  /** The commands feedAppendOnlyFile logs for argv run in database db. */
  function Logged(selected: Option<nat>, db: nat, argv: Command): seq<Command> {
    if selected == Some(db) then [argv] else [SelectCommand(db), argv]
  }

  function Feed(p: Parent, db: nat, argv: Command): Parent {
    var bytes := EncodeLog(Logged(p.selectedDb, db, argv));
    p.(selectedDb := Some(db),
       buf := if p.state.On? then p.buf + bytes else p.buf,
       pending := if p.rewriting then p.pending + bytes else p.pending)
  }

  // ----- files and pipes, whose system calls may be short, interrupted or fail

  /** What the next write does: take at most n bytes, be interrupted, or fail. */
  datatype Outcome = Takes(n: nat) | Interrupted | Fails

  class File {
    var contents: seq<Octet>
    var script: seq<Outcome>  // once it is exhausted every write is complete

    constructor (contents: seq<Octet>, script: seq<Outcome>)
      ensures this.contents == contents && this.script == script
    {
      this.contents, this.script := contents, script;
    }

    /** write(2): -1 on error; eintr says whether the error was an interruption. */
    method Write(buf: seq<Octet>) returns (n: int, eintr: bool)
      modifies this
      ensures -1 <= n <= |buf| && (eintr ==> n == -1)
      ensures contents == old(contents) + if n < 0 then [] else buf[..n]
      ensures if old(script) == [] then script == [] && n == |buf| else script == old(script)[1..]
      ensures n < 0 && !eintr <==> old(script) != [] && old(script)[0].Fails?
    {
      eintr := false;
      if script == [] {
        n := |buf|;
      } else {
        match script[0] {
          case Takes(k) => n := if k < |buf| then k else |buf|;
          case Interrupted => n, eintr := -1, true;
          case Fails => n := -1;
        }
        script := script[1..];
      }
      contents := contents + if n < 0 then [] else buf[..n];
    }

    /** The outcomes used up since the script was was. */
    ghost function Used(was: seq<Outcome>): seq<Outcome>
      requires |script| <= |was|
      reads this
    {
      was[..|was| - |script|]
    }

    /** ftruncate(2) */
    method Truncate(size: nat, ok: bool) returns (done: bool)
      requires size <= |contents|
      modifies this`contents
      ensures done == ok && contents == if ok then old(contents)[..size] else old(contents)
    {
      if ok {
        contents := contents[..size];
      }
      done := ok;
    }
  }

  /** aofWrite: the bytes written, or -1 if an error struck before the first. */
  method AofWrite(fd: File, buf: seq<Octet>) returns (total: int)
    modifies fd
    ensures -1 <= total <= |buf| && (buf == [] ==> total == 0) && (total == 0 ==> buf == [])
    ensures fd.contents == old(fd.contents) + if total < 0 then [] else buf[..total]
    ensures |fd.script| <= |old(fd.script)| && (total == |buf| <==> Fails !in fd.Used(old(fd.script)))
  {
    total := 0;
    var rest := buf;
    while rest != []
      invariant 0 <= total <= |buf| && rest == buf[total..]
      invariant fd.contents == old(fd.contents) + buf[..total]
      invariant |fd.script| <= |old(fd.script)| && fd.script == old(fd.script)[|old(fd.script)| - |fd.script|..]
      invariant Fails !in fd.Used(old(fd.script))
      decreases |fd.script|, |rest|
    {
      ghost var used := fd.Used(old(fd.script));
      var n, eintr := fd.Write(rest);
      assert fd.Used(old(fd.script)) == used
             || fd.Used(old(fd.script)) == used + [old(fd.script)[|old(fd.script)| - |fd.script| - 1]];
      if n < 0 {
        if eintr { continue; }
        return if total > 0 then total else -1;
      }
      assert buf[..total] + rest[..n] == buf[..total + n];
      rest := rest[n..];
      total := total + n;
    }
  }

  // ----- the rewrite buffer

  type Block = b: seq<Octet> | |b| <= AOF_RW_BUF_BLOCK_SIZE

  /** The free bytes of the last block. */
  function Room(blocks: seq<Block>): nat {
    if blocks == [] then 0 else AOF_RW_BUF_BLOCK_SIZE - |blocks[|blocks| - 1]|
  }

  function FillLast(blocks: seq<Block>, s: seq<Octet>): (r: seq<Block>)
    requires blocks != [] && |s| <= Room(blocks)
    ensures Flatten(r) == Flatten(blocks) + s
  {
    var init, last := blocks[..|blocks| - 1], blocks[|blocks| - 1];
    FlattenSnoc(init, last);
    FlattenSnoc(init, last + s);
    assert blocks == init + [last];
    init + [last + s]
  }

  /** aofRewriteBufferAppend: fills the last block, then as many new ones as needed. */
  method RewriteBufferAppend(blocks: seq<Block>, s: seq<Octet>) returns (r: seq<Block>)
    ensures Flatten(r) == Flatten(blocks) + s
  {
    hide Flatten, FillLast;
    r := blocks;
    var rest := s;
    while rest != []
      invariant Flatten(r) + rest == Flatten(blocks) + s
      decreases |rest|, if Room(r) == 0 then 1 else 0
    {
      var len := if Room(r) < |rest| then Room(r) else |rest|;
      if len > 0 {
        assert Flatten(r) + rest == Flatten(r) + rest[..len] + rest[len..];
        r := FillLast(r, rest[..len]);
        rest := rest[len..];
      }
      if rest != [] {
        FlattenSnoc(r, []);
        assert Flatten(r) + [] == Flatten(r);
        r := r + [[]];
      }
    }
  }

  lemma SentPart(r: seq<Block>, n: nat, all: seq<Octet>, k: nat)
    requires r != [] && n <= |r[0]| && k <= |all| && Flatten(r) == all[k..]
    ensures k + n <= |all| && all[..k] + r[0][..n] == all[..k + n]
    ensures Flatten([r[0][n..]] + r[1..]) == all[k + n..]
  {
    var rest := Flatten(r[1..]);
    assert all[k..] == r[0] + rest;
    assert r[0] + rest == r[0][..n] + (r[0][n..] + rest);
    assert ([r[0][n..]] + r[1..])[1..] == r[1..];
    assert all[k + n..] == all[k..][n..];
  }

  lemma SentBlock(r: seq<Block>)
    requires r != [] && r[0] == []
    ensures Flatten(r[1..]) == Flatten(r)
  {
  }

  /** aofChildWriteDiffData: sends blocks to the child until the pipe refuses or nothing is left. */
  method ChildWriteDiffData(blocks: seq<Block>, stop: bool, pipe: File) returns (r: seq<Block>)
    modifies pipe
    ensures exists k :: 0 <= k <= |Flatten(blocks)| && (stop ==> k == 0)
              && Flatten(r) == Flatten(blocks)[k..] && pipe.contents == old(pipe.contents) + Flatten(blocks)[..k]
    ensures !stop && old(pipe.script) == [] ==> r == []
  {
    hide Flatten;
    r := blocks;
    ghost var all, k := Flatten(blocks), 0;
    while true
      invariant 0 <= k <= |all| && (stop ==> k == 0)
      invariant Flatten(r) == all[k..] && pipe.contents == old(pipe.contents) + all[..k]
      invariant old(pipe.script) == [] ==> pipe.script == []
      decreases |pipe.script|, |r|, if r == [] then 0 else |r[0]|
    {
      if stop || r == [] { return; }
      var block := r[0];
      if block != [] {
        var n, _ := pipe.Write(block);
        if n <= 0 { return; }
        SentPart(r, n, all, k);
        r := [block[n..]] + r[1..];
        k := k + n;
      }
      if r[0] == [] {
        SentBlock(r);
        r := r[1..];
      }
    }
  }

  /** aofRewriteBufferWrite: every block in one write each, or failure. */
  method RewriteBufferWrite(blocks: seq<Block>, fd: File) returns (ok: bool)
    modifies fd
    ensures ok ==> fd.contents == old(fd.contents) + Flatten(blocks)
    ensures old(fd.script) == [] ==> ok
  {
    ghost var start := fd.contents;
    for i := 0 to |blocks|
      invariant fd.contents == start + Flatten(blocks[..i])
      invariant old(fd.script) == [] ==> fd.script == []
    {
      FlattenSnoc(blocks[..i], blocks[i]);
      assert blocks[..i + 1] == blocks[..i] + [blocks[i]];
      if blocks[i] != [] {
        var n, _ := fd.Write(blocks[i]);
        if n != |blocks[i]| { return false; }
        assert blocks[i][..n] == blocks[i];
      }
    }
    assert blocks[..|blocks|] == blocks;
    ok := true;
  }

  /** aofReadDiffFromParent: reads until the pipe is empty; each read returns between 1 and 65536 bytes. */
  method ReadDiffFromParent(pipe: seq<Octet>, diff: seq<Octet>, chunks: seq<nat>) returns (r: seq<Octet>)
    ensures r == diff + pipe
  {
    r := diff;
    var rest, i := pipe, 0;
    while rest != []
      invariant r + rest == diff + pipe
      decreases |rest|
    {
      var want := if i < |chunks| && 0 < chunks[i] <= 65536 then chunks[i] else 65536;
      var n := if want < |rest| then want else |rest|;
      r := r + rest[..n];
      assert rest == rest[..n] + rest[n..];
      rest := rest[n..];
      i := i + 1;
    }
  }

  // ----- the server

  datatype FlushResult = NothingToFlush | Postponed | Flushed | WriteFailed | Exited

  datatype DoneResult = Switched | OldLogKept

  class AppendOnlyServer {
    const policy: FsyncPolicy
    var state: AofState
    var selectedDb: Option<nat>
    var buf: seq<Octet>
    var blocks: seq<Block>
    var stopSending: bool
    var rewriting: bool
    var fd: File
    var currentSize: nat
    var lastWriteOk: bool
    var postponedStart: int

    constructor (policy: FsyncPolicy, fd: File)
      ensures Valid() && this.policy == policy && this.fd == fd
      ensures View() == Parent(Off, None, [], [], false, false, fd.contents)
    {
      this.policy, this.fd, this.currentSize := policy, fd, |fd.contents|;
      state, selectedDb, buf, blocks := Off, None, [], [];
      stopSending, rewriting, lastWriteOk, postponedStart := false, false, true, 0;
      NoBlocks();
    }

    /** Only while logging is on does the recorded size mean anything, or is there anything to flush. */
    ghost predicate Valid()
      reads this, fd
    {
      if state.On? then currentSize == |fd.contents| else buf == []
    }

    ghost function View(): Parent
      reads this, fd
    {
      Parent(state, selectedDb, buf, Flatten(blocks), stopSending, rewriting, fd.contents)
    }

    /** feedAppendOnlyFile, for a command that needs no translation. */
    method FeedAppendOnlyFile(db: nat, argv: Command)
      requires Valid()
      modifies this`selectedDb, this`buf, this`blocks
      ensures Valid()
      ensures View() == Feed(old(View()), db, argv)
    {
      hide EncodeCommand, Flatten;
      var bytes := [];
      assert EncodeLog([argv]) == EncodeCommand(argv) by { LogOfOne(argv); }
      if selectedDb != Some(db) {
        LogOfTwo(SelectCommand(db), argv);
        bytes := CatAppendOnlyGenericCommand(bytes, SelectCommand(db));
        selectedDb := Some(db);
      }
      bytes := CatAppendOnlyGenericCommand(bytes, argv);
      assert bytes == EncodeLog(Logged(old(selectedDb), db, argv));
      if state.On? {
        buf := buf + bytes;
      }
      if rewriting {
        blocks := RewriteBufferAppend(blocks, bytes);
      }
    }

    /** A write of the buffer behind start took n bytes, or none at all, and then failed. */
    method HandleWriteError(n: int, truncateOk: bool, ghost start: seq<Octet>) returns (r: FlushResult)
      requires state.On? && currentSize == |start| && -1 <= n < |buf|
      requires fd.contents == start + if n < 0 then [] else buf[..n]
      modifies this`buf, this`currentSize, this`lastWriteOk, fd`contents
      ensures r == if policy.Always? then Exited else WriteFailed
      ensures var k := if n < 0 || truncateOk then 0 else n;
              && fd.contents == start + old(buf)[..k]
              && (r.WriteFailed? ==> Valid() && buf == old(buf)[k..] && !lastWriteOk)
    {
      var left := n;
      if n >= 0 {
        assert fd.contents[..currentSize] == start;
        var cut := fd.Truncate(currentSize, truncateOk);
        if cut { left := -1; }
      }
      if policy.Always? { return Exited; }
      lastWriteOk := false;
      if left > 0 {
        currentSize := currentSize + left;
        buf := buf[left..];
      }
      return WriteFailed;
    }

    /**
     flushAppendOnlyFile. For every pattern of short writes, interruptions, write errors
     and ftruncate outcomes no byte is lost or written twice: the file followed by the
     buffer stays what it was, and while logging is on the recorded size stays the size of
     the file. With policy Always a failed write ends the process instead.
     */
    method FlushAppendOnlyFile(force: bool, now: int, syncInProgress: bool, truncateOk: bool) returns (r: FlushResult)
      requires Valid()
      modifies this`buf, this`currentSize, this`lastWriteOk, this`postponedStart, fd
      ensures |fd.script| <= |old(fd.script)|
              && (r.Exited? || r.WriteFailed? <==> Fails in fd.Used(old(fd.script)))
      ensures r.Exited? ==> policy.Always?
      ensures r.Exited? ==>
                exists k :: 0 <= k <= |old(buf)| && (truncateOk ==> k == 0)
                  && fd.contents == old(fd.contents) + old(buf)[..k]
      ensures !r.Exited? ==>
                Valid() && fd.contents + buf == old(fd.contents) + old(buf) && |old(fd.contents)| <= |fd.contents|
      ensures r.Flushed? ==> buf == [] && lastWriteOk
      ensures r.WriteFailed? ==> !lastWriteOk && !policy.Always?
      ensures r.WriteFailed? && truncateOk ==> fd.contents == old(fd.contents) && buf == old(buf)
      ensures r.NothingToFlush? || r.Postponed? ==>
                fd.contents == old(fd.contents) && buf == old(buf) && lastWriteOk == old(lastWriteOk)
      ensures r.NothingToFlush? <==> old(buf) == []
      ensures r.Postponed? <==>
                && old(buf) != [] && policy.EverySec? && !force && syncInProgress
                && (old(postponedStart) == 0 || now - old(postponedStart) < 2)
      ensures postponedStart == if r.Postponed? && old(postponedStart) == 0 then now
                                else if r.NothingToFlush? || r.Postponed? then old(postponedStart) else 0
    {
      if buf == [] { return NothingToFlush; }
      if policy.EverySec? && !force && syncInProgress {
        if postponedStart == 0 {
          postponedStart := now;
          return Postponed;
        } else if now - postponedStart < 2 {
          return Postponed;
        }
      }
      var n := AofWrite(fd, buf);
      postponedStart := 0;
      if n != |buf| {
        r := HandleWriteError(n, truncateOk, old(fd.contents));
        return;
      }
      lastWriteOk := true;
      currentSize := currentSize + n;
      assert buf[..n] == buf;
      buf := [];
      return Flushed;
    }

    /** The write event of the data pipe. */
    method OnPipeWritable(pipe: File)
      requires Valid() && pipe != fd
      modifies this`blocks, pipe
      ensures Valid()
      ensures exists k :: 0 <= k <= |old(View()).pending| && (stopSending ==> k == 0)
                && View() == old(View()).(pending := old(View()).pending[k..])
                && pipe.contents == old(pipe.contents) + old(View()).pending[..k]
                && (old(pipe.script) == [] && !stopSending ==> k == |old(View()).pending|)
    {
      hide Flatten;
      ghost var all, was := Flatten(blocks), View();
      blocks := ChildWriteDiffData(blocks, stopSending, pipe);
      NoBlocks();
      ghost var k :| 0 <= k <= |all| && (stopSending ==> k == 0)
                     && Flatten(blocks) == all[k..] && pipe.contents == old(pipe.contents) + all[..k];
      assert View() == was.(pending := was.pending[k..]);
    }

    /** aofChildPipeReadable: a '!' from the child stops the sending; ackOk: the answer could be written. */
    method OnChildPipe(message: seq<Octet>, ackOk: bool) returns (ack: seq<Octet>)
      requires Valid()
      modifies this`stopSending
      ensures Valid()
      ensures var stop := message != [] && message[0] == 33;
              && View() == old(View()).(stopSending := old(stopSending) || stop)
              && ack == if stop && ackOk then [33] else []
    {
      ack := [];
      if message != [] && message[0] == 33 {
        stopSending := true;
        if ackOk { ack := [33]; }
      }
    }

    /** The parent side of rewriteAppendOnlyFileBackground, after the fork. */
    method StartRewrite()
      requires Valid() && !rewriting
      modifies this`blocks, this`stopSending, this`rewriting, this`selectedDb
      ensures Valid()
      ensures View() == Forked(old(View()))
    {
      blocks, stopSending, rewriting, selectedDb := [], false, true, None;
      NoBlocks();
    }

    /**
     backgroundRewriteDoneHandler. tmp is the file the child left; opens and renames say
     whether open(2) and fsync(2), and rename(2), succeed.
     */
    method OnRewriteDone(childOk: bool, tmp: File, opens: bool, renames: bool) returns (r: DoneResult)
      requires Valid() && rewriting && tmp != fd
      modifies this`state, this`selectedDb, this`buf, this`blocks, this`rewriting, this`fd, this`currentSize, tmp
      ensures Valid() && fd == if r.Switched? && !old(state).Off? then tmp else old(fd)
      ensures r.Switched? ==> childOk && opens && renames
      ensures childOk && opens && renames && old(tmp.script) == [] ==> r.Switched?
      ensures View() == RewriteDone(old(View()), r.Switched?, old(tmp.contents))
    {
      hide Flatten;
      r := OldLogKept;
      if childOk && opens {
        var ok := RewriteBufferWrite(blocks, tmp);
        if ok && renames {
          r := Switched;
          if !state.Off? {
            fd := tmp;
            selectedDb := None;
            currentSize := |fd.contents|;
            buf := [];
          }
          if state.WaitRewrite? { state := On; }
        }
      }
      blocks, rewriting := [], false;
      NoBlocks();
    }

    /** killAppendOnlyChild */
    method KillAppendOnlyChild()
      modifies this`blocks, this`rewriting
      ensures View() == Killed(old(View()))
    {
      if !rewriting { return; }
      blocks, rewriting := [], false;
      NoBlocks();
    }

    /** stopAppendOnly: a last flush, then whatever it left in the buffer is dropped. */
    method StopAppendOnly(now: int, syncInProgress: bool, truncateOk: bool) returns (r: FlushResult)
      requires Valid() && !state.Off?
      modifies this`buf, this`currentSize, this`lastWriteOk, this`postponedStart, this`selectedDb, this`state,
               this`blocks, this`rewriting, fd
      ensures !r.Postponed? && (r.Exited? ==> policy.Always?)
      ensures |fd.script| <= |old(fd.script)|
              && (r.Exited? || r.WriteFailed? <==> Fails in fd.Used(old(fd.script)))
      ensures !r.Exited? ==> Valid()
      ensures !r.Exited? ==>
                exists k :: 0 <= k <= |old(buf)| && (!r.WriteFailed? ==> k == |old(buf)|)
                  && (r.WriteFailed? && truncateOk ==> k == 0)
                  && View() == Stopped(old(View())).(file := old(fd.contents) + old(buf)[..k])
    {
      hide Flatten;
      ghost var before := View();
      r := FlushAppendOnlyFile(true, now, syncInProgress, truncateOk);
      if r.Exited? { return; }
      ghost var k := |old(buf)| - |buf|;
      FlushedPrefix(old(fd.contents), old(buf), fd.contents, buf);
      selectedDb, state := None, Off;
      KillAppendOnlyChild();
      buf := [];
      assert View() == Stopped(before).(file := old(fd.contents) + old(buf)[..k]);
    }

    /**
     startAppendOnly: log is the file it opened, if it could; otherChild: some other child
     is running; forks: the child of the rewrite could be started.
     */
    method StartAppendOnly(log: Option<File>, otherChild: bool, forks: bool) returns (ok: bool)
      requires Valid() && state.Off? && !(otherChild && rewriting)
      modifies this`selectedDb, this`state, this`blocks, this`rewriting, this`stopSending, this`fd, this`lastWriteOk
      ensures Valid() && ok == (log.Some? && (otherChild || forks))
      ensures ok ==> fd == log.value && View() == Started(old(View()), otherChild).(file := log.value.contents)
      ensures !ok ==> fd == old(fd) && View() == if log == None then old(View()) else Killed(old(View()))
    {
      if log == None { return false; }
      if !otherChild {
        KillAppendOnlyChild();
        if !forks { return false; }
        StartRewrite();
      }
      state, fd, lastWriteOk := WaitRewrite, log.value, true;
      ok := true;
    }
  }

  lemma NoBlocks()
    ensures Flatten<Octet>([]) == []
  {
  }

  lemma FlushedPrefix(file: seq<Octet>, buf: seq<Octet>, file1: seq<Octet>, buf1: seq<Octet>)
    requires file + buf == file1 + buf1 && |file| <= |file1|
    ensures |buf1| <= |buf| && file1 == file + buf[..|buf| - |buf1|]
  {
    var all := file + buf;
    assert file1 == all[..|file1|];
    assert all[..|file1|] == file + buf[..|file1| - |file|];
  }

  function Forked(p: Parent): Parent {
    p.(pending := [], stopSending := false, rewriting := true, selectedDb := None)
  }

  function Killed(p: Parent): Parent {
    if p.rewriting then p.(pending := [], rewriting := false) else p
  }

  function Stopped(p: Parent): Parent {
    Killed(p.(selectedDb := None, state := Off)).(buf := [])
  }

  function Started(p: Parent, otherChild: bool): Parent {
    (if otherChild then p else Forked(Killed(p))).(state := WaitRewrite)
  }

  /** What the end of a rewrite leaves: the new log with everything fed since the fork, or the old one. */
  function RewriteDone(p: Parent, switched: bool, tmp: seq<Octet>): Parent {
    var q := if !switched || p.state.Off? then p
             else p.(file := tmp + p.pending, selectedDb := None, buf := [], state := On);
    q.(pending := [], rewriting := false)
  }

  lemma LogOfOne(argv: Command)
    ensures EncodeLog([argv]) == EncodeCommand(argv)
  {
    assert [argv][1..] == [];
    assert EncodeCommand(argv) + [] == EncodeCommand(argv);
  }

  lemma LogOfTwo(a: Command, b: Command)
    ensures EncodeLog([a, b]) == EncodeCommand(a) + EncodeCommand(b)
  {
    assert [a, b] == [a] + [b];
    EncodeLogAppend([a], [b]);
    LogOfOne(a);
    LogOfOne(b);
  }
}
