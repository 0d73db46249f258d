/**
 Logs with transactions. A log is a sequence of single commands and of blocks, MULTI, the
 commands of the transaction, EXEC. Loading it applies every block as a whole, and a log cut
 at any byte applies exactly the items that lie wholly before the cut: a transaction without
 its whole EXEC is never applied.
 */
module AofTransactions {
  import opened AofLog
  import opened AofLoad

  // ----- any commands: what the loader makes of the bytes of a log

  ghost predicate Loadable(argv: Command, env: Env) {
    ValidCommand(argv) && env.known(argv[0])
  }

  ghost predicate AllLoadable(cmds: seq<Command>, env: Env) {
    forall i :: 0 <= i < |cmds| ==> Loadable(cmds[i], env)
  }

  /** The fake client after the commands, the first of which begins at offset. */
  ghost function RunAll(st: Progress, cmds: seq<Command>, offset: nat, env: Env): Progress
    requires AllLoadable(cmds, env)
    decreases |cmds|
  {
    if cmds == [] then st
    else
      var next := offset + |EncodeCommand(cmds[0])|;
      assert Loadable(cmds[0], env);
      RunAll(RunCommand(st, cmds[0], next, env), cmds[1..], next, env)
  }

  /** The end of the file: at is where it is, clean whether no command was cut. */
  ghost function AtEnd(st: Progress, at: nat, clean: bool, env: Env): Result {
    if !clean then Recover(st, st.validUpTo, env)
    else if st.inMulti then Recover(st, st.validBeforeMulti, env)
    else Loaded(st.ran, at)
  }

  lemma LoadAnyOne(argv: Command, rest: seq<Octet>, offset: nat, st: Progress, env: Env)
    requires Loadable(argv, env)
    ensures var n := offset + |EncodeCommand(argv)|;
            LoadFrom(EncodeCommand(argv) + rest, offset, st, env)
            == LoadFrom(rest, n, RunCommand(st, argv, n, env), env)
  {
    hide ParseCommand, EncodeCommand, RunCommand;
    NonEmptyCommand(argv);
    ParseWhole(argv, rest);
    assert (EncodeCommand(argv) + rest)[|EncodeCommand(argv)|..] == rest;
  }

  lemma CutAnyOne(argv: Command, cut: nat, offset: nat, st: Progress, env: Env)
    requires Loadable(argv, env) && 0 < cut < |EncodeCommand(argv)|
    ensures LoadFrom(EncodeCommand(argv)[..cut], offset, st, env) == Recover(st, st.validUpTo, env)
  {
    hide ParseCommand, EncodeCommand, RunCommand;
    ParseCut(argv, cut);
  }

  /** Loading the first cut bytes of a log is running its whole commands and seeing how it ends. */
  lemma {:induction false} LoadRuns(cmds: seq<Command>, cut: nat, offset: nat, st: Progress, env: Env)
    requires AllLoadable(cmds, env) && cut <= |EncodeLog(cmds)|
    ensures var k := WholeCommands(cmds, cut);
            LoadFrom(EncodeLog(cmds)[..cut], offset, st, env)
            == AtEnd(RunAll(st, cmds[..k], offset, env), offset + cut, cut == |EncodeLog(cmds[..k])|, env)
    decreases |cmds|
  {
    hide *;
    var k := WholeCommands(cmds, cut);
    if cut == 0 {
      NothingWhole(cmds);
      EndsHere(cmds, offset, st, env);
    } else if CutInside(cmds, cut) {
      CutsHere(cmds, cut, offset, st, env);
    } else {
      CutBehind(cmds, cut);
      var n := |EncodeCommand(cmds[0])|;
      var rest := EncodeLog(cmds[1..])[..cut - n];
      FirstLoadable(cmds, k, offset, st, env);
      LoadAnyOne(cmds[0], rest, offset, st, env);
      var next := RunCommand(st, cmds[0], offset + n, env);
      LoadRuns(cmds[1..], cut - n, offset + n, next, env);
      assert |EncodeLog(cmds[..k])| == n + |EncodeLog(cmds[1..][..k - 1])|;
    }
  }

  lemma EndsHere(cmds: seq<Command>, offset: nat, st: Progress, env: Env)
    requires AllLoadable(cmds, env)
    ensures LoadFrom(EncodeLog(cmds)[..0], offset, st, env)
         == AtEnd(RunAll(st, cmds[..0], offset, env), offset, 0 == |EncodeLog(cmds[..0])|, env)
  {
  }

  lemma CutsHere(cmds: seq<Command>, cut: nat, offset: nat, st: Progress, env: Env)
    requires AllLoadable(cmds, env) && CutInside(cmds, cut) && cut <= |EncodeLog(cmds)|
    ensures WholeCommands(cmds, cut) == 0
    ensures LoadFrom(EncodeLog(cmds)[..cut], offset, st, env)
         == AtEnd(RunAll(st, cmds[..0], offset, env), offset + cut, cut == |EncodeLog(cmds[..0])|, env)
  {
    hide EncodeCommand, RunCommand, LoadFrom, Loadable;
    assert EncodeLog(cmds)[..cut] == EncodeCommand(cmds[0])[..cut];
    CutAnyOne(cmds[0], cut, offset, st, env);
  }

  lemma FirstLoadable(cmds: seq<Command>, k: nat, offset: nat, st: Progress, env: Env)
    requires AllLoadable(cmds, env) && 0 < k <= |cmds|
    ensures Loadable(cmds[0], env) && AllLoadable(cmds[1..], env) && AllLoadable(cmds[..k], env)
    ensures cmds[0] != [] && AllLoadable(cmds[1..][..k - 1], env)
    ensures var n := offset + |EncodeCommand(cmds[0])|;
            RunAll(st, cmds[..k], offset, env)
            == RunAll(RunCommand(st, cmds[0], n, env), cmds[1..][..k - 1], n, env)
  {
    hide EncodeCommand, RunCommand;
    assert Loadable(cmds[0], env);
    assert cmds[..k][1..] == cmds[1..][..k - 1];
  }

  lemma {:induction false} RunAllAppend(st: Progress, a: seq<Command>, b: seq<Command>, offset: nat, env: Env)
    requires AllLoadable(a, env) && AllLoadable(b, env)
    ensures AllLoadable(a + b, env)
    ensures RunAll(st, a + b, offset, env) == RunAll(RunAll(st, a, offset, env), b, offset + |EncodeLog(a)|, env)
    decreases |a|
  {
    hide EncodeCommand, RunCommand, Loadable;
    if a == [] {
      assert a + b == b;
    } else {
      assert (a + b)[1..] == a[1..] + b;
      var n := offset + |EncodeCommand(a[0])|;
      assert Loadable(a[0], env);
      assert (a + b)[0] == a[0];
      NotEmpty(a[0], env);
      RunAllAppend(RunCommand(st, a[0], n, env), a[1..], b, n, env);
    }
  }

  lemma NotEmpty(argv: Command, env: Env)
    requires Loadable(argv, env)
    ensures argv != []
  {
  }

  // ----- single commands and transactions

  datatype Item =
    | One(argv: Command)
    | Block(multi: Command, body: seq<Command>, exec: Command)
    | Stray(exec: Command)

  /** A plain command, plain commands between MULTI and EXEC, or an EXEC without its MULTI. */
  ghost predicate GoodItem(item: Item, env: Env) {
    match item
    case One(argv) => Plain(argv, env)
    case Block(multi, body, exec) =>
      && Loadable(multi, env) && env.isMulti(multi[0]) && !env.isExec(multi[0])
      && AllPlain(body, env)
      && Loadable(exec, env) && env.isExec(exec[0]) && !env.isMulti(exec[0])
    case Stray(exec) => Loadable(exec, env) && env.isExec(exec[0]) && !env.isMulti(exec[0])
  }

  ghost predicate AllGood(items: seq<Item>, env: Env) {
    forall i :: 0 <= i < |items| ==> GoodItem(items[i], env)
  }

  /** The commands of the log. */
  function Commands(item: Item): seq<Command> {
    match item
    case One(argv) => [argv]
    case Block(multi, body, exec) => [multi] + body + [exec]
    case Stray(exec) => [exec]
  }

  function AllCommands(items: seq<Item>): seq<Command> {
    if items == [] then [] else Commands(items[0]) + AllCommands(items[1..])
  }

  /** The commands that are to be applied. */
  function Effects(item: Item): seq<Command> {
    match item
    case One(argv) => [argv]
    case Block(_, body, _) => body
    case Stray(_) => []
  }

  function AllEffects(items: seq<Item>): seq<Command> {
    if items == [] then [] else Effects(items[0]) + AllEffects(items[1..])
  }

  lemma PlainIsLoadable(cmds: seq<Command>, env: Env)
    requires AllPlain(cmds, env)
    ensures AllLoadable(cmds, env)
  {
    hide ValidCommand;
    forall i | 0 <= i < |cmds|
      ensures Loadable(cmds[i], env)
    {
      assert Plain(cmds[i], env);
    }
  }

  lemma ItemLoadable(item: Item, env: Env)
    requires GoodItem(item, env)
    ensures AllLoadable(Commands(item), env)
  {
    hide ValidCommand;
    if item.Block? {
      PlainIsLoadable(item.body, env);
    }
  }

  lemma {:induction false} ItemsLoadable(items: seq<Item>, env: Env)
    requires AllGood(items, env)
    ensures AllLoadable(AllCommands(items), env)
  {
    hide Loadable, GoodItem, Commands;
    if items != [] {
      assert GoodItem(items[0], env);
      ItemLoadable(items[0], env);
      ItemsLoadable(items[1..], env);
    }
  }

  /** Inside MULTI, with the commands so far queued and nothing of them applied. */
  ghost predicate Open(st: Progress, ran: seq<Command>, queue: seq<Command>, start: nat, at: nat, env: Env) {
    && st.inMulti && st.ran == ran && st.queue == queue
    && (env.loadTruncated ==> st.validBeforeMulti == start && st.validUpTo == at)
  }

  lemma {:induction false} Queues(st: Progress, ran: seq<Command>, queue: seq<Command>, start: nat, at: nat,
                                  cmds: seq<Command>, env: Env)
    requires AllPlain(cmds, env) && Open(st, ran, queue, start, at, env)
    ensures AllLoadable(cmds, env)
    ensures Open(RunAll(st, cmds, at, env), ran, queue + cmds, start, at + |EncodeLog(cmds)|, env)
    decreases |cmds|
  {
    hide EncodeCommand, ValidCommand;
    PlainIsLoadable(cmds, env);
    if cmds == [] {
      assert queue + cmds == queue;
    } else {
      assert Plain(cmds[0], env);
      NotEmpty(cmds[0], env);
      var n := at + |EncodeCommand(cmds[0])|;
      Queues(RunCommand(st, cmds[0], n, env), ran, queue + [cmds[0]], start, n, cmds[1..], env);
      assert queue + [cmds[0]] + cmds[1..] == queue + cmds;
    }
  }

  lemma Opens(st: Progress, multi: Command, offset: nat, env: Env)
    requires Loadable(multi, env) && env.isMulti(multi[0]) && !env.isExec(multi[0]) && UpToDate(st, offset, env)
    ensures var n := offset + |EncodeCommand(multi)|;
            Open(RunCommand(st, multi, n, env), st.ran, [], offset, n, env)
  {
    hide EncodeCommand, ValidCommand;
  }

  /** The first k commands of a block, not all of them: nothing of it is applied yet. */
  lemma OpenBlock(st: Progress, item: Item, k: nat, offset: nat, env: Env)
    requires GoodItem(item, env) && item.Block? && UpToDate(st, offset, env) && 0 < k < |Commands(item)|
    ensures AllLoadable(Commands(item)[..k], env)
    ensures var cmds := Commands(item)[..k];
            Open(RunAll(st, cmds, offset, env), st.ran, item.body[..k - 1], offset, offset + |EncodeLog(cmds)|, env)
  {
    hide EncodeCommand, ValidCommand, UpToDate, RunCommand;
    var multi, some := item.multi, item.body[..k - 1];
    ItemLoadable(item, env);
    assert Commands(item)[..k] == [multi] + some;
    var n := offset + |EncodeCommand(multi)|;
    NotEmpty(multi, env);
    Opens(st, multi, offset, env);
    Queues(RunCommand(st, multi, n, env), st.ran, [], offset, n, some, env);
    assert ([multi] + some)[1..] == some && [] + some == some;
  }

  /** A whole item: its effects are applied, all at once. */
  lemma RunItem(st: Progress, item: Item, offset: nat, env: Env)
    requires GoodItem(item, env) && UpToDate(st, offset, env)
    ensures AllLoadable(Commands(item), env)
    ensures var after := RunAll(st, Commands(item), offset, env);
            UpToDate(after, offset + |EncodeLog(Commands(item))|, env) && after.ran == st.ran + Effects(item)
  {
    hide EncodeCommand, ValidCommand;
    ItemLoadable(item, env);
    if !item.Block? {
      assert Commands(item)[1..] == [];
      assert st.ran + [] == st.ran;
    } else {
      var k := |item.body| + 1;
      OpenBlock(st, item, k, offset, env);
      assert Commands(item) == Commands(item)[..k] + [item.exec] && item.body[..k - 1] == item.body;
      RunAllAppend(st, Commands(item)[..k], [item.exec], offset, env);
      EncodeLogAppend(Commands(item)[..k], [item.exec]);
      assert [item.exec][1..] == [];
    }
  }

  lemma {:induction false} RunItems(st: Progress, items: seq<Item>, offset: nat, env: Env)
    requires AllGood(items, env) && UpToDate(st, offset, env)
    ensures AllLoadable(AllCommands(items), env)
    ensures var after := RunAll(st, AllCommands(items), offset, env);
            && UpToDate(after, offset + |EncodeLog(AllCommands(items))|, env)
            && after.ran == st.ran + AllEffects(items)
    decreases |items|
  {
    hide EncodeCommand, EncodeLog, RunCommand, GoodItem, UpToDate, Commands, Effects, Loadable;
    ItemsLoadable(items, env);
    if items == [] {
      LogOfNothing();
      assert st.ran + [] == st.ran;
    } else {
      assert GoodItem(items[0], env);
      RunItem(st, items[0], offset, env);
      var first := Commands(items[0]);
      var n := offset + |EncodeLog(first)|;
      RunItems(RunAll(st, first, offset, env), items[1..], n, env);
      RunAllAppend(st, first, AllCommands(items[1..]), offset, env);
      EncodeLogAppend(first, AllCommands(items[1..]));
      assert st.ran + Effects(items[0]) + AllEffects(items[1..]) == st.ran + AllEffects(items);
    }
  }

  lemma LogOfNothing()
    ensures EncodeLog([]) == []
  {
  }

  /** Loading a whole log applies the commands of every transaction and keeps the file. */
  lemma LoadTransactions(items: seq<Item>, env: Env)
    requires AllGood(items, env) && items != []
    ensures var log := EncodeLog(AllCommands(items));
            Load(log, env) == Loaded(AllEffects(items), |log|)
  {
    hide RunAll, LoadFrom, GoodItem, EncodeLog, WholeCommands;
    var cmds := AllCommands(items);
    var log := EncodeLog(cmds);
    ItemsLoadable(items, env);
    SomeBytes(items, env);
    AllWhole(cmds);
    LoadRuns(cmds, |log|, 0, START, env);
    assert cmds[..|cmds|] == cmds && log[..|log|] == log;
    RunItems(START, items, 0, env);
    assert [] + AllEffects(items) == AllEffects(items);
  }

  /** MULTI inside MULTI is queued like any command, but moves the place the file is cut back to. */
  lemma OpensAgain(st: Progress, ran: seq<Command>, queue: seq<Command>, start: nat, at: nat, inner: Command, env: Env)
    requires Loadable(inner, env) && env.isMulti(inner[0]) && !env.isExec(inner[0])
    requires Open(st, ran, queue, start, at, env)
    ensures var n := at + |EncodeCommand(inner)|;
            Open(RunCommand(st, inner, n, env), ran, queue + [inner], at, n, env)
  {
    hide EncodeCommand, ValidCommand;
  }

  /**
   A log that ends inside a transaction with a second MULTI in it. Nothing of it is applied,
   but it is cut off only from the second MULTI on: the first stays in the file, open.
   */
  lemma NestedMultiStays(items: seq<Item>, multi: Command, queued: seq<Command>, inner: Command, more: seq<Command>,
                         env: Env)
    requires AllGood(items, env) && AllPlain(queued, env) && AllPlain(more, env)
    requires Loadable(multi, env) && env.isMulti(multi[0]) && !env.isExec(multi[0])
    requires Loadable(inner, env) && env.isMulti(inner[0]) && !env.isExec(inner[0])
    requires env.loadTruncated && env.truncateOk
    ensures var first := AllCommands(items) + ([multi] + queued);
            Load(EncodeLog(first + ([inner] + more)), env) == Loaded(AllEffects(items), |EncodeLog(first)|)
  {
    hide RunAll, RunCommand, LoadFrom, GoodItem, EncodeLog, EncodeCommand, WholeCommands, UpToDate, Loadable, AllPlain;
    var before := AllCommands(items);
    var block, again := [multi] + queued, [inner] + more;
    var first := before + block;
    var all := first + again;
    var log := EncodeLog(all);
    assert UpToDate(START, 0, env) by { StartsClean(env); }
    RunItems(START, items, 0, env);
    assert [] + AllEffects(items) == AllEffects(items);
    var st := RunAll(START, before, 0, env);
    var o := |EncodeLog(before)|;
    var st1 := RunMulti(st, multi, queued, o, env);
    var n := o + |EncodeLog(block)|;
    var st2 := RunInner(st1, st.ran, queued, o, n, inner, more, env);
    RunAllAppend(START, before, block, 0, env);
    EncodeLogAppend(before, block);
    RunAllAppend(START, first, again, 0, env);
    EncodeLogAppend(first, again);
    NotEmpty(multi, env);
    BytesOf(all, |before|);
    AllWhole(all);
    LoadRuns(all, |log|, 0, START, env);
    assert all[..|all|] == all && log[..|log|] == log;
  }

  lemma RunMulti(st: Progress, multi: Command, queued: seq<Command>, offset: nat, env: Env) returns (after: Progress)
    requires Loadable(multi, env) && env.isMulti(multi[0]) && !env.isExec(multi[0]) && UpToDate(st, offset, env)
    requires AllPlain(queued, env)
    ensures AllLoadable([multi] + queued, env) && after == RunAll(st, [multi] + queued, offset, env)
    ensures Open(after, st.ran, queued, offset, offset + |EncodeLog([multi] + queued)|, env)
  {
    hide EncodeCommand, ValidCommand, UpToDate, RunCommand, AllPlain;
    var n := offset + |EncodeCommand(multi)|;
    PlainIsLoadable(queued, env);
    NotEmpty(multi, env);
    Opens(st, multi, offset, env);
    Queues(RunCommand(st, multi, n, env), st.ran, [], offset, n, queued, env);
    assert ([multi] + queued)[1..] == queued && [] + queued == queued;
    after := RunAll(st, [multi] + queued, offset, env);
  }

  lemma RunInner(st: Progress, ran: seq<Command>, queue: seq<Command>, start: nat, at: nat, inner: Command,
                 more: seq<Command>, env: Env) returns (after: Progress)
    requires Loadable(inner, env) && env.isMulti(inner[0]) && !env.isExec(inner[0])
    requires Open(st, ran, queue, start, at, env) && AllPlain(more, env)
    ensures AllLoadable([inner] + more, env) && after == RunAll(st, [inner] + more, at, env)
    ensures Open(after, ran, queue + [inner] + more, at, at + |EncodeLog([inner] + more)|, env)
  {
    hide EncodeCommand, ValidCommand, RunCommand, AllPlain;
    var n := at + |EncodeCommand(inner)|;
    PlainIsLoadable(more, env);
    NotEmpty(inner, env);
    OpensAgain(st, ran, queue, start, at, inner, env);
    Queues(RunCommand(st, inner, n, env), ran, queue + [inner], at, n, more, env);
    assert ([inner] + more)[1..] == more;
    after := RunAll(st, [inner] + more, at, env);
  }

  lemma BytesOf(cmds: seq<Command>, i: nat)
    requires i < |cmds|
    ensures EncodeLog(cmds) != []
  {
    hide EncodeCommand;
    NonEmptyCommand(cmds[0]);
  }

  lemma SomeBytes(items: seq<Item>, env: Env)
    requires items != []
    ensures EncodeLog(AllCommands(items)) != []
  {
    hide EncodeCommand;
    NonEmptyCommand(AllCommands(items)[0]);
  }

  lemma {:induction false} AllWhole(cmds: seq<Command>)
    ensures WholeCommands(cmds, |EncodeLog(cmds)|) == |cmds|
  {
    hide EncodeCommand;
    if cmds != [] {
      AllWhole(cmds[1..]);
    }
  }

  // ----- a log cut at any byte

  /** The items wholly within the first cut bytes of the log. */
  function WholeItems(items: seq<Item>, cut: nat): (k: nat)
    ensures k <= |items|
  {
    if items == [] || cut < |EncodeLog(Commands(items[0]))| then 0
    else 1 + WholeItems(items[1..], cut - |EncodeLog(Commands(items[0]))|)
  }

  /** The whole items are the longest run of items that fits. */
  lemma {:induction false} WholeItemsFit(items: seq<Item>, cut: nat)
    ensures var k := WholeItems(items, cut);
            && |EncodeLog(AllCommands(items[..k]))| <= cut
            && (k < |items| ==>
                  cut < |EncodeLog(AllCommands(items[..k]))| + |EncodeLog(Commands(items[k]))|)
  {
    hide EncodeLog, Commands;
    LogOfNothing();
    if items != [] && cut >= |EncodeLog(Commands(items[0]))| {
      var n := |EncodeLog(Commands(items[0]))|;
      WholeItemsFit(items[1..], cut - n);
      var k := WholeItems(items[1..], cut - n);
      assert items[..k + 1][1..] == items[1..][..k];
      EncodeLogAppend(Commands(items[0]), AllCommands(items[1..][..k]));
    }
  }

  lemma {:induction false} WholeInBoth(a: seq<Command>, b: seq<Command>, cut: nat)
    requires |EncodeLog(a)| <= cut
    ensures WholeCommands(a + b, cut) == |a| + WholeCommands(b, cut - |EncodeLog(a)|)
    decreases |a|
  {
    hide EncodeCommand;
    if a == [] {
      assert a + b == b;
    } else {
      assert (a + b)[1..] == a[1..] + b;
      WholeInBoth(a[1..], b, cut - |EncodeCommand(a[0])|);
    }
  }

  lemma {:induction false} WholeInFirst(a: seq<Command>, b: seq<Command>, cut: nat)
    requires cut < |EncodeLog(a)|
    ensures WholeCommands(a + b, cut) == WholeCommands(a, cut) < |a|
    decreases |a|
  {
    hide EncodeCommand;
    assert (a + b)[0] == a[0];
    if cut >= |EncodeCommand(a[0])| {
      assert (a + b)[1..] == a[1..] + b;
      WholeInFirst(a[1..], b, cut - |EncodeCommand(a[0])|);
    }
  }

  /**
   A log cut at any positive byte, with aof-load-truncated. Applied are the items wholly
   before the cut, and nothing of a transaction whose EXEC is not. The file keeps its whole
   commands if a command was cut; if none was, an open transaction is cut off with its MULTI.
   */
  lemma LoadCutTransactions(items: seq<Item>, cut: nat, env: Env)
    requires AllGood(items, env) && 0 < cut <= |EncodeLog(AllCommands(items))|
    requires env.loadTruncated && env.truncateOk
    ensures var cmds, whole := AllCommands(items), items[..WholeItems(items, cut)];
            var kept := |EncodeLog(cmds[..WholeCommands(cmds, cut)])|;
            Load(EncodeLog(cmds)[..cut], env)
            == Loaded(AllEffects(whole), if cut == kept then |EncodeLog(AllCommands(whole))| else kept)
  {
    hide RunAll, LoadFrom, GoodItem, EncodeLog, WholeCommands, UpToDate, Commands;
    var cmds, j := AllCommands(items), WholeItems(items, cut);
    ItemsLoadable(items, env);
    LoadRuns(cmds, cut, 0, START, env);
    var done := AllCommands(items[..j]);
    var n := |EncodeLog(done)|;
    WholeItemsFit(items, cut);
    assert UpToDate(START, 0, env) by { StartsClean(env); }
    RunItems(START, items[..j], 0, env);
    assert [] + AllEffects(items[..j]) == AllEffects(items[..j]);
    assert items == items[..j] + items[j..];
    CommandsAppend(items[..j], items[j..]);
    WholeInBoth(done, AllCommands(items[j..]), cut);
    EndOfCut(items, j, cut, RunAll(START, done, 0, env), env);
  }

  lemma StartsClean(env: Env)
    ensures UpToDate(START, 0, env)
  {
  }

  lemma {:induction false} CommandsAppend(a: seq<Item>, b: seq<Item>)
    ensures AllCommands(a + b) == AllCommands(a) + AllCommands(b)
  {
    hide Commands;
    if a == [] {
      assert a + b == b;
    } else {
      assert (a + b)[1..] == a[1..] + b;
      CommandsAppend(a[1..], b);
    }
  }

  /** The whole commands are those of the j whole items and some, not all, of the next. */
  lemma CutPosition(items: seq<Item>, j: nat, cut: nat) returns (i: nat)
    requires j == WholeItems(items, cut) && cut <= |EncodeLog(AllCommands(items))|
    ensures var done := AllCommands(items[..j]);
            var part := if j < |items| then Commands(items[j]) else [];
            && i <= |part| && (j < |items| ==> i < |part|) && (j == |items| ==> cut == |EncodeLog(done)|)
            && AllCommands(items)[..WholeCommands(AllCommands(items), cut)] == done + part[..i]
            && |EncodeLog(done + part[..i])| == |EncodeLog(done)| + |EncodeLog(part[..i])|
  {
    hide EncodeLog, WholeCommands, Commands;
    var cmds, done, rest := AllCommands(items), AllCommands(items[..j]), AllCommands(items[j..]);
    var n := |EncodeLog(done)|;
    assert items == items[..j] + items[j..];
    CommandsAppend(items[..j], items[j..]);
    WholeItemsFit(items, cut);
    WholeInBoth(done, rest, cut);
    EncodeLogAppend(done, rest);
    i := WholeCommands(rest, cut - n);
    assert cmds[..|done| + i] == done + rest[..i];
    EncodeLogAppend(done, rest[..i]);
    if j < |items| {
      assert items[j..][0] == items[j];
      WholeInFirst(Commands(items[j]), AllCommands(items[j..][1..]), cut - n);
      assert rest[..i] == Commands(items[j])[..i];
    } else {
      LogOfNothing();
    }
  }

  /** How the file ends behind j whole items. */
  lemma EndOfCut(items: seq<Item>, j: nat, cut: nat, st: Progress, env: Env)
    requires AllGood(items, env) && env.loadTruncated && env.truncateOk
    requires j == WholeItems(items, cut) && cut <= |EncodeLog(AllCommands(items))|
    requires AllLoadable(AllCommands(items), env) && AllLoadable(AllCommands(items[..j]), env)
    requires st == RunAll(START, AllCommands(items[..j]), 0, env)
    requires UpToDate(st, |EncodeLog(AllCommands(items[..j]))|, env)
    ensures var cmds, n := AllCommands(items), |EncodeLog(AllCommands(items[..j]))|;
            var k := WholeCommands(cmds, cut);
            var kept := |EncodeLog(cmds[..k])|;
            AtEnd(RunAll(START, cmds[..k], 0, env), cut, cut == kept, env)
            == Loaded(st.ran, if cut == kept then n else kept)
  {
    hide EncodeLog, WholeCommands, Commands, GoodItem, AllCommands, RunAll, UpToDate, Loadable, AtEnd, WholeItems;
    var i := CutPosition(items, j, cut);
    var done := AllCommands(items[..j]);
    var n := |EncodeLog(done)|;
    if j < |items| {
      assert GoodItem(items[j], env);
      PartOfItem(items[j], i, cut, st, n, env);
      RunAllAppend(START, done, Commands(items[j])[..i], 0, env);
    } else {
      LogOfNothing();
      NothingLeft(n, st, env);
      assert done + [] == done;
    }
  }

  lemma NothingLeft(at: nat, st: Progress, env: Env)
    requires UpToDate(st, at, env)
    ensures AllLoadable([], env) && RunAll(st, [], at, env) == st
    ensures AtEnd(st, at, true, env) == Loaded(st.ran, at)
  {
  }

  /** Some but not all commands of an item leave what is applied as it was. */
  lemma PartOfItem(item: Item, i: nat, end: nat, st: Progress, at: nat, env: Env)
    requires GoodItem(item, env) && UpToDate(st, at, env) && i < |Commands(item)|
    requires env.loadTruncated && env.truncateOk
    ensures AllLoadable(Commands(item)[..i], env)
    ensures var part := Commands(item)[..i];
            var st1, kept := RunAll(st, part, at, env), at + |EncodeLog(part)|;
            && (end == kept ==> AtEnd(st1, end, true, env) == Loaded(st.ran, at))
            && AtEnd(st1, end, false, env) == Loaded(st.ran, kept)
  {
    hide EncodeCommand, ValidCommand, RunCommand;
    if i > 0 {
      OpenBlock(st, item, i, at, env);
    } else {
      assert Commands(item)[..0] == [];
    }
  }
}
