/**
 loadAppendOnlyFile: the loop over the commands of the log, MULTI, and the recovery of a
 truncated file.
 */
module AofLoad {
  import opened AofLog

  /** The command table and the settings the loader consults; truncateOk: truncate(2) and lseek(2) succeed. */
  datatype Env = Env(
    known: Arg -> bool,
    isMulti: Arg -> bool,
    isExec: Arg -> bool,
    loadTruncated: bool,
    truncateOk: bool)

  /** ran: the commands applied to the dataset, in order. */
  datatype Progress = Progress(
    ran: seq<Command>,
    inMulti: bool,
    queue: seq<Command>,
    validUpTo: nat,
    validBeforeMulti: nat)

  /** Loaded: the commands applied and the length of the file afterwards. */
  datatype Result = Loaded(ran: seq<Command>, size: nat) | EmptyFile | Exit

  const START: Progress := Progress([], false, [], 0, 0)

  /** One command in the context of the fake client; next is the offset after it. */
  function RunCommand(st: Progress, argv: Command, next: nat, env: Env): Progress
    requires argv != []
  {
    var name := argv[0];
    var st1 := if env.isMulti(name) then st.(validBeforeMulti := st.validUpTo) else st;
    var st2 :=
      if st.inMulti && !env.isExec(name) then st1.(queue := st1.queue + [argv])
      else if env.isExec(name) then
        if st.inMulti then st1.(ran := st1.ran + st1.queue, inMulti := false, queue := []) else st1
      else if env.isMulti(name) then st1.(inMulti := true)
      else st1.(ran := st1.ran + [argv]);
    if env.loadTruncated then st2.(validUpTo := next) else st2
  }

  /** uxeof: an unexpected end of file. */
  function Recover(st: Progress, size: nat, env: Env): Result {
    if env.loadTruncated && env.truncateOk then Loaded(st.ran, size) else Exit
  }

  /** The loop, from a file rest whose offset is given. */
  function LoadFrom(s: seq<Octet>, offset: nat, st: Progress, env: Env): Result
    decreases |s|
  {
    if s == [] then
      if st.inMulti then Recover(st, st.validBeforeMulti, env) else Loaded(st.ran, offset)
    else
      match ParseCommand(s)
      case ShortRead => Recover(st, st.validUpTo, env)
      case Fatal => Exit
      case Parsed(argv, used) =>
        if !env.known(argv[0]) then Exit
        else LoadFrom(s[used..], offset + used, RunCommand(st, argv, offset + used, env), env)
  }

  function Load(file: seq<Octet>, env: Env): Result {
    if file == [] then EmptyFile else LoadFrom(file, 0, START, env)
  }

  // ----- the program's loops

  /** fgets: how far the line at pos goes. */
  method Fgets(file: seq<Octet>, pos: nat) returns (next: nat)
    requires pos <= |file|
    ensures next == pos + LineLength(file[pos..], LINE_MAX)
  {
    next := pos;
    var room := LINE_MAX;
    assert file[pos..] == file[next..];
    while next < |file| && room > 0
      invariant pos <= next <= |file|
      invariant next + LineLength(file[next..], room) == pos + LineLength(file[pos..], LINE_MAX)
      decreases room
    {
      assert file[next..][1..] == file[next + 1..];
      next := next + 1;
      room := room - 1;
      if file[next - 1] == LF {
        return;
      }
    }
  }

  lemma Slice(file: seq<Octet>, pos: nat, a: nat, b: nat)
    requires a <= b && pos + b <= |file|
    ensures file[pos..][a..b] == file[pos + a..pos + b]
    ensures file[pos..][b..] == file[pos + b..]
  {
  }

  /** One argument: its length line, its bytes, and the two bytes after them. */
  method ReadArgument(file: seq<Octet>, pos: nat) returns (r: ArgResult)
    requires pos <= |file|
    ensures r == ReadArg(file[pos..])
  {
    hide LineLength, ParseLong;
    if pos == |file| { return ArgShort; }
    var line := Fgets(file, pos);
    assert file[pos..][0] == file[pos];
    if file[pos] != DOLLAR { return ArgBad; }
    Slice(file, pos, 1, line - pos);
    var len := ParseLong(file[pos + 1..line]);
    if len < 0 { return ArgBad; }
    if len > 0 && |file| < line + len { return ArgShort; }
    if |file| < line + len + 2 { return ArgShort; }
    Slice(file, pos, line - pos, line - pos + len);
    r := Arg(file[line..line + len], line - pos + len + 2);
  }

  /** The inner loop: the arguments of one command. */
  method ReadArguments(file: seq<Octet>, start: nat, argc: nat) returns (r: ArgsResult)
    requires start <= |file|
    ensures r == ReadArgs(file[start..], argc)
  {
    hide ReadArg, ReadArgs;
    var pos, argv := start, [];
    PrependNothing(ReadArgs(file[start..], argc));
    for j := 0 to argc
      invariant start <= pos <= |file|
      invariant ReadArgs(file[start..], argc) == Prepend(argv, pos - start, ReadArgs(file[pos..], argc - j))
    {
      ReadArgsStep(argv, pos - start, file[pos..], argc - j);
      var a := ReadArgument(file, pos);
      match a {
        case ArgShort => return ArgsShort;
        case ArgBad => return ArgsBad;
        case Arg(value, used) =>
          Slice(file, pos, 0, used);
          argv := argv + [value];
          pos := pos + used;
      }
    }
    r := Args(argv, pos - start);
    NoMoreArgs(file[pos..]);
    assert argv + [] == argv;
  }

  lemma PrependNothing(r: ArgsResult)
    ensures Prepend([], 0, r) == r
  {
    if r.Args? {
      assert [] + r.values == r.values;
    }
  }

  lemma NoMoreArgs(s: seq<Octet>)
    ensures ReadArgs(s, 0) == Args([], 0)
  {
  }

  function Prepend(argv: seq<Arg>, used: nat, r: ArgsResult): ArgsResult {
    match r
    case Args(more, n) => Args(argv + more, used + n)
    case _ => r
  }

  lemma ReadArgsStep(argv: seq<Arg>, used: nat, s: seq<Octet>, n: nat)
    requires n > 0
    ensures match ReadArg(s)
            case ArgShort => Prepend(argv, used, ReadArgs(s, n)) == ArgsShort
            case ArgBad => Prepend(argv, used, ReadArgs(s, n)) == ArgsBad
            case Arg(a, k) =>
              Prepend(argv, used, ReadArgs(s, n)) == Prepend(argv + [a], used + k, ReadArgs(s[k..], n - 1))
  {
    match ReadArg(s)
    case Arg(a, k) =>
      match ReadArgs(s[k..], n - 1) {
        case Args(more, _) => assert argv + ([a] + more) == argv + [a] + more;
        case _ =>
      }
    case _ =>
  }

  /** The body of the loop up to the command lookup. */
  method ReadOneCommand(file: seq<Octet>, pos: nat) returns (r: Parsed)
    requires pos < |file|
    ensures r == ParseCommand(file[pos..])
  {
    hide LineLength, ParseLong, ReadArgs;
    var line := Fgets(file, pos);
    ghost var rest := file[pos..];
    assert rest[0] == file[pos] && line - pos == LineLength(rest, LINE_MAX);
    if file[pos] != STAR { return Fatal; }
    if line == pos + 1 || file[pos + 1] == 0 {
      assert rest[line - pos - 1] == file[line - 1];
      if line == |file| && line - pos < LINE_MAX && file[line - 1] != LF { return ShortRead; }
      return Fatal;
    }
    assert rest[1] == file[pos + 1];
    Slice(file, pos, 1, line - pos);
    var argc := ParseLong(file[pos + 1..line]);
    if argc < 1 { return Fatal; }
    var args := ReadArguments(file, line, argc);
    match args {
      case ArgsShort => return ShortRead;
      case ArgsBad => return Fatal;
      case Args(argv, used) => return Parsed(argv, line - pos + used);
    }
  }

  method LoadAppendOnlyFile(file: seq<Octet>, env: Env) returns (r: Result)
    ensures r == Load(file, env)
  {
    hide ParseCommand, RunCommand;
    if file == [] { return EmptyFile; }
    var pos, st := 0, START;
    assert file[0..] == file;
    while true
      invariant pos <= |file|
      invariant Load(file, env) == LoadFrom(file[pos..], pos, st, env)
      decreases |file| - pos
    {
      if pos == |file| {
        if st.inMulti {
          return Recover(st, st.validBeforeMulti, env);
        }
        return Loaded(st.ran, pos);
      }
      var parsed := ReadOneCommand(file, pos);
      match parsed {
        case ShortRead => return Recover(st, st.validUpTo, env);
        case Fatal => return Exit;
        case Parsed(argv, used) =>
          if !env.known(argv[0]) { return Exit; }
          Slice(file, pos, 0, used);
          st := RunCommand(st, argv, pos + used, env);
          pos := pos + used;
      }
    }
  }

  // ----- what loading gives back

  /** The command exists and is neither MULTI nor EXEC. */
  ghost predicate Plain(argv: Command, env: Env) {
    ValidCommand(argv) && env.known(argv[0]) && !env.isMulti(argv[0]) && !env.isExec(argv[0])
  }

  ghost predicate AllPlain(cmds: seq<Command>, env: Env) {
    forall i :: 0 <= i < |cmds| ==> Plain(cmds[i], env)
  }

  /** Outside MULTI, with every command so far applied and accounted for. */
  ghost predicate UpToDate(st: Progress, offset: nat, env: Env) {
    !st.inMulti && st.queue == [] && (env.loadTruncated ==> st.validUpTo == offset)
  }

  /** The commands wholly within the first cut bytes of the log. */
  function WholeCommands(cmds: seq<Command>, cut: nat): (k: nat)
    ensures k <= |cmds|
  {
    if cmds == [] || cut < |EncodeCommand(cmds[0])| then 0
    else 1 + WholeCommands(cmds[1..], cut - |EncodeCommand(cmds[0])|)
  }

  lemma {:induction false} WholeCommandsFit(cmds: seq<Command>, cut: nat)
    ensures var k := WholeCommands(cmds, cut);
            && |EncodeLog(cmds[..k])| <= cut
            && (k < |cmds| ==> cut < |EncodeLog(cmds[..k])| + |EncodeCommand(cmds[k])|)
  {
    if cmds != [] && cut >= |EncodeCommand(cmds[0])| {
      var n := |EncodeCommand(cmds[0])|;
      WholeCommandsFit(cmds[1..], cut - n);
      var k := WholeCommands(cmds[1..], cut - n);
      assert cmds[..k + 1][1..] == cmds[1..][..k];
    }
  }

  /** Loading consumes a whole plain command and goes on behind it. */
  lemma LoadOne(argv: Command, rest: seq<Octet>, offset: nat, st: Progress, env: Env)
    requires Plain(argv, env) && UpToDate(st, offset, env)
    ensures var next := RunCommand(st, argv, offset + |EncodeCommand(argv)|, env);
            && UpToDate(next, offset + |EncodeCommand(argv)|, env) && next.ran == st.ran + [argv]
            && LoadFrom(EncodeCommand(argv) + rest, offset, st, env)
               == LoadFrom(rest, offset + |EncodeCommand(argv)|, next, env)
  {
    hide ParseCommand, EncodeCommand;
    var s := EncodeCommand(argv) + rest;
    NonEmptyCommand(argv);
    ParseWhole(argv, rest);
    assert s[|EncodeCommand(argv)|..] == rest;
  }

  lemma NonEmptyCommand(argv: Command)
    ensures EncodeCommand(argv) != []
  {
  }

  predicate CutInside(cmds: seq<Command>, cut: nat) {
    cmds != [] && 0 < cut < |EncodeCommand(cmds[0])|
  }

  /** A cut inside the first command: nothing is whole, and the file is cut back to here. */
  lemma LoadCutInside(cmds: seq<Command>, cut: nat, offset: nat, st: Progress, env: Env)
    requires AllPlain(cmds, env) && CutInside(cmds, cut) && UpToDate(st, offset, env)
    requires env.loadTruncated && env.truncateOk
    ensures cut <= |EncodeLog(cmds)| && WholeCommands(cmds, cut) == 0
    ensures LoadFrom(EncodeLog(cmds)[..cut], offset, st, env) == Loaded(st.ran, offset)
  {
    hide ParseCommand, EncodeCommand, RunCommand;
    assert EncodeLog(cmds)[..cut] == EncodeCommand(cmds[0])[..cut];
    ParseCut(cmds[0], cut);
  }

  /** A cut behind the first command. */
  lemma CutBehind(cmds: seq<Command>, cut: nat)
    requires 0 < cut <= |EncodeLog(cmds)| && !CutInside(cmds, cut)
    ensures cmds != []
    ensures var n, k := |EncodeCommand(cmds[0])|, WholeCommands(cmds, cut);
            && k > 0 && k - 1 == WholeCommands(cmds[1..], cut - n)
            && cut - n <= |EncodeLog(cmds[1..])|
            && EncodeLog(cmds)[..cut] == EncodeCommand(cmds[0]) + EncodeLog(cmds[1..])[..cut - n]
            && EncodeLog(cmds[..k]) == EncodeCommand(cmds[0]) + EncodeLog(cmds[1..][..k - 1])
            && cmds[..k] == [cmds[0]] + cmds[1..][..k - 1]
  {
    hide EncodeCommand;
    var k := WholeCommands(cmds, cut);
    assert cmds[..k][1..] == cmds[1..][..k - 1];
  }

  lemma {:induction false} LoadCutFrom(cmds: seq<Command>, cut: nat, offset: nat, st: Progress, env: Env)
    requires AllPlain(cmds, env) && cut <= |EncodeLog(cmds)| && UpToDate(st, offset, env)
    requires env.loadTruncated && env.truncateOk
    ensures var k := WholeCommands(cmds, cut);
            LoadFrom(EncodeLog(cmds)[..cut], offset, st, env)
            == Loaded(st.ran + cmds[..k], offset + |EncodeLog(cmds[..k])|)
    decreases |cmds|
  {
    hide *;
    var k := WholeCommands(cmds, cut);
    if cut == 0 {
      NothingWhole(cmds);
      assert EncodeLog(cmds)[..cut] == [] && cmds[..k] == [];
      LoadNothing(offset, st, env);
    } else if CutInside(cmds, cut) {
      LoadCutInside(cmds, cut, offset, st, env);
      assert cmds[..k] == [];
      LoadNothing(offset, st, env);
    } else {
      CutBehind(cmds, cut);
      var argv, n := cmds[0], |EncodeCommand(cmds[0])|;
      var rest := EncodeLog(cmds[1..])[..cut - n];
      LoadOneOf(cmds, rest, offset, st, env);
      var next := RunCommand(st, argv, offset + n, env);
      LoadCutFrom(cmds[1..], cut - n, offset + n, next, env);
      assert next.ran + cmds[1..][..k - 1] == st.ran + cmds[..k];
    }
  }

  lemma LoadNothing(offset: nat, st: Progress, env: Env)
    requires UpToDate(st, offset, env)
    ensures LoadFrom([], offset, st, env) == Loaded(st.ran, offset) && EncodeLog([]) == [] && st.ran + [] == st.ran
  {
  }

  lemma LoadOneOf(cmds: seq<Command>, rest: seq<Octet>, offset: nat, st: Progress, env: Env)
    requires AllPlain(cmds, env) && cmds != [] && UpToDate(st, offset, env)
    ensures cmds[0] != [] && AllPlain(cmds[1..], env)
    ensures var next := RunCommand(st, cmds[0], offset + |EncodeCommand(cmds[0])|, env);
            && UpToDate(next, offset + |EncodeCommand(cmds[0])|, env) && next.ran == st.ran + [cmds[0]]
            && LoadFrom(EncodeCommand(cmds[0]) + rest, offset, st, env)
               == LoadFrom(rest, offset + |EncodeCommand(cmds[0])|, next, env)
  {
    hide EncodeCommand, RunCommand, LoadFrom;
    assert Plain(cmds[0], env);
    LoadOne(cmds[0], rest, offset, st, env);
  }

  lemma NothingWhole(cmds: seq<Command>)
    ensures WholeCommands(cmds, 0) == 0
  {
    if cmds != [] {
      NonEmptyCommand(cmds[0]);
    }
  }

  /** A whole log loads as itself, with either setting of aof-load-truncated. */
  lemma {:induction false} LoadWholeFrom(cmds: seq<Command>, offset: nat, st: Progress, env: Env)
    requires AllPlain(cmds, env) && UpToDate(st, offset, env)
    ensures LoadFrom(EncodeLog(cmds), offset, st, env) == Loaded(st.ran + cmds, offset + |EncodeLog(cmds)|)
    decreases |cmds|
  {
    hide ParseCommand, EncodeCommand, RunCommand;
    if cmds == [] {
      assert st.ran + cmds == st.ran;
    } else {
      LoadOne(cmds[0], EncodeLog(cmds[1..]), offset, st, env);
      var n := |EncodeCommand(cmds[0])|;
      var next := RunCommand(st, cmds[0], offset + n, env);
      LoadWholeFrom(cmds[1..], offset + n, next, env);
      assert next.ran + cmds[1..] == st.ran + cmds;
    }
  }

  /** Loading what was printed runs exactly the printed commands and keeps the file. */
  lemma LoadRoundTrip(cmds: seq<Command>, env: Env)
    requires AllPlain(cmds, env) && cmds != []
    ensures Load(EncodeLog(cmds), env) == Loaded(cmds, |EncodeLog(cmds)|)
  {
    NonEmptyCommand(cmds[0]);
    LoadWholeFrom(cmds, 0, START, env);
    assert [] + cmds == cmds;
  }

  /**
   Truncation recovery. A log cut at any positive byte loads, with aof-load-truncated,
   exactly the commands wholly before the cut, and the file is cut back to their length.
   */
  lemma LoadTruncated(cmds: seq<Command>, cut: nat, env: Env)
    requires AllPlain(cmds, env) && 0 < cut <= |EncodeLog(cmds)|
    requires env.loadTruncated && env.truncateOk
    ensures var whole := cmds[..WholeCommands(cmds, cut)];
            && Load(EncodeLog(cmds)[..cut], env) == Loaded(whole, |EncodeLog(whole)|)
            && |EncodeLog(whole)| <= cut
            && EncodeLog(cmds)[..|EncodeLog(whole)|] == EncodeLog(whole)
  {
    hide EncodeLog, LoadFrom, AllPlain, WholeCommands;
    LoadCutFrom(cmds, cut, 0, START, env);
    var k := WholeCommands(cmds, cut);
    assert [] + cmds[..k] == cmds[..k];
    WholeCommandsFit(cmds, cut);
    assert cmds == cmds[..k] + cmds[k..];
    EncodeLogAppend(cmds[..k], cmds[k..]);
  }

  /**
   MULTI without its EXEC, followed by the first k bytes of one more queued command. The
   transaction is never applied; but only when the log ends between two commands is it
   also cut off the file. Ending inside a command leaves MULTI and what it queued there.
   */
  lemma LoadOpenMulti(cmds: seq<Command>, multi: Command, queued: seq<Command>, last: Command, k: nat, env: Env)
    requires AllPlain(cmds, env) && AllPlain(queued, env) && Plain(last, env) && k < |EncodeCommand(last)|
    requires ValidCommand(multi) && env.known(multi[0]) && env.isMulti(multi[0]) && !env.isExec(multi[0])
    requires env.loadTruncated && env.truncateOk
    ensures var whole := EncodeLog(cmds + [multi] + queued);
            Load(whole + EncodeCommand(last)[..k], env)
            == Loaded(cmds, if k == 0 then |EncodeLog(cmds)| else |whole|)
  {
    hide LoadFrom, EncodeLog, EncodeCommand, RunCommand, AllPlain, Plain;
    var rest := EncodeCommand(last)[..k];
    var tail := EncodeLog(queued) + rest;
    MultiLayout(cmds, multi, queued, rest);
    var st := LoadPrefix(cmds, EncodeCommand(multi) + tail, 0, START, env);
    assert [] + cmds == cmds;
    LoadMulti(multi, tail, |EncodeLog(cmds)|, st, env);
    var n := |EncodeLog(cmds)| + |EncodeCommand(multi)|;
    LoadQueued(queued, last, k, n, RunCommand(st, multi, n, env), env);
  }

  lemma MultiLayout(cmds: seq<Command>, multi: Command, queued: seq<Command>, rest: seq<Octet>)
    ensures var whole := EncodeLog(cmds + [multi] + queued);
            && whole != []
            && whole + rest == EncodeLog(cmds) + (EncodeCommand(multi) + (EncodeLog(queued) + rest))
            && |whole| == |EncodeLog(cmds)| + |EncodeCommand(multi)| + |EncodeLog(queued)|
  {
    hide EncodeCommand;
    EncodeLogAppend(cmds + [multi], queued);
    EncodeLogAppend(cmds, [multi]);
    assert [multi][1..] == [];
    assert EncodeLog([multi]) == EncodeCommand(multi) + [];
    NonEmptyCommand(multi);
  }

  lemma LoadMulti(multi: Command, tail: seq<Octet>, offset: nat, st: Progress, env: Env)
    requires ValidCommand(multi) && env.known(multi[0]) && env.isMulti(multi[0]) && !env.isExec(multi[0])
    requires UpToDate(st, offset, env) && env.loadTruncated
    ensures var n := offset + |EncodeCommand(multi)|;
            var next := RunCommand(st, multi, n, env);
            && LoadFrom(EncodeCommand(multi) + tail, offset, st, env) == LoadFrom(tail, n, next, env)
            && next.inMulti && next.ran == st.ran && next.validBeforeMulti == offset && next.validUpTo == n
  {
    hide ParseCommand, EncodeCommand;
    NonEmptyCommand(multi);
    ParseWhole(multi, tail);
    assert (EncodeCommand(multi) + tail)[|EncodeCommand(multi)|..] == tail;
  }

  lemma {:induction false} LoadPrefix(cmds: seq<Command>, tail: seq<Octet>, offset: nat, st: Progress,
                                      env: Env) returns (after: Progress)
    requires AllPlain(cmds, env) && UpToDate(st, offset, env)
    ensures UpToDate(after, offset + |EncodeLog(cmds)|, env) && after.ran == st.ran + cmds
    ensures LoadFrom(EncodeLog(cmds) + tail, offset, st, env)
              == LoadFrom(tail, offset + |EncodeLog(cmds)|, after, env)
    decreases |cmds|
  {
    hide ParseCommand, EncodeCommand, RunCommand;
    if cmds == [] {
      assert EncodeLog(cmds) + tail == tail;
      after := st;
      assert st.ran + cmds == st.ran;
    } else {
      var rest := EncodeLog(cmds[1..]) + tail;
      assert EncodeLog(cmds) + tail == EncodeCommand(cmds[0]) + rest;
      LoadOne(cmds[0], rest, offset, st, env);
      var n := |EncodeCommand(cmds[0])|;
      var next := RunCommand(st, cmds[0], offset + n, env);
      after := LoadPrefix(cmds[1..], tail, offset + n, next, env);
      assert next.ran + cmds[1..] == st.ran + cmds;
    }
  }

  lemma {:induction false} LoadQueued(cmds: seq<Command>, last: Command, k: nat, offset: nat, st: Progress, env: Env)
    requires AllPlain(cmds, env) && Plain(last, env) && k < |EncodeCommand(last)|
    requires st.inMulti && env.loadTruncated && env.truncateOk && st.validUpTo == offset
    ensures LoadFrom(EncodeLog(cmds) + EncodeCommand(last)[..k], offset, st, env)
         == Loaded(st.ran, if k == 0 then st.validBeforeMulti else offset + |EncodeLog(cmds)|)
    decreases |cmds|
  {
    hide ParseCommand, EncodeCommand;
    var rest := EncodeCommand(last)[..k];
    if cmds == [] {
      assert EncodeLog(cmds) + rest == rest;
      if k > 0 {
        ParseCut(last, k);
      }
    } else {
      var argv, n := cmds[0], |EncodeCommand(cmds[0])|;
      var tail := EncodeLog(cmds[1..]) + rest;
      assert EncodeLog(cmds) + rest == EncodeCommand(argv) + tail;
      NonEmptyCommand(argv);
      ParseWhole(argv, tail);
      assert (EncodeCommand(argv) + tail)[n..] == tail;
      LoadQueued(cmds[1..], last, k, offset + n, RunCommand(st, argv, offset + n, env), env);
    }
  }
}
