/**
 What loadAppendOnlyFile refuses and what it lets pass: a log that goes wrong behind any
 number of good commands ends the server, whatever the settings; a log that merely stops
 does so unless the recovery of truncated files is on and works; and bytes the loader does
 not look at make no difference.
 */
module AofErrors {
  import opened AofLog
  import opened AofLoad

  // ----- lines and numbers

  /** fgets takes everything up to and including the first line feed, or as much as there is or fits. */
  lemma {:induction false} LineIs(s: seq<Octet>, limit: nat)
    ensures var l := LineLength(s, limit);
            && (forall i :: 0 <= i < l - 1 ==> s[i] != LF)
            && (l < limit && l < |s| ==> l > 0 && s[l - 1] == LF)
  {
    if s != [] && limit > 0 && s[0] != LF {
      LineIs(s[1..], limit - 1);
    }
  }

  predicate AllSpaces(t: seq<Octet>) {
    forall i :: 0 <= i < |t| ==> t[i] == 32 || 9 <= t[i] <= 13
  }

  lemma {:induction false} SpacesSkipped(spaces: seq<Octet>, t: seq<Octet>)
    requires AllSpaces(spaces)
    ensures ParseLong(spaces + t) == ParseLong(t)
  {
    if spaces == [] {
      assert spaces + t == t;
    } else {
      assert (spaces + t)[1..] == spaces[1..] + t;
      SpacesSkipped(spaces[1..], t);
    }
  }

  lemma SignedNumbers(n: nat, rest: seq<Octet>)
    requires rest == [] || !IsDigit(rest[0])
    ensures ParseLong([43] + (Digits(n) + rest)) == n && ParseLong([45] + (Digits(n) + rest)) == 0 - n
  {
    hide Digits;
    DigitsRoundTrip(n);
    DigitsValueAppend(0, Digits(n), rest);
    assert ([43] + (Digits(n) + rest))[1..] == Digits(n) + rest;
    assert ([45] + (Digits(n) + rest))[1..] == Digits(n) + rest;
  }

  /** A number may have spaces and a sign in front, and anything but a digit behind; no digits read as 0. */
  lemma NumbersRead(spaces: seq<Octet>, n: nat, rest: seq<Octet>)
    requires AllSpaces(spaces) && (rest == [] || !IsDigit(rest[0]))
    ensures ParseLong(spaces + (Digits(n) + rest)) == n
    ensures ParseLong(spaces + ([43] + (Digits(n) + rest))) == n
    ensures ParseLong(spaces + ([45] + (Digits(n) + rest))) == 0 - n
    ensures rest == [] || (!IsSpace(rest[0]) && rest[0] != 43 && rest[0] != 45) ==> ParseLong(spaces + rest) == 0
  {
    hide Digits, AllSpaces;
    ParseLongRoundTrip(n, rest);
    SignedNumbers(n, rest);
    SpacesSkipped(spaces, Digits(n) + rest);
    SpacesSkipped(spaces, [43] + (Digits(n) + rest));
    SpacesSkipped(spaces, [45] + (Digits(n) + rest));
    SpacesSkipped(spaces, rest);
  }

  // ----- what ends the server

  /** Behind any number of good commands, what cannot be parsed is fatal whatever the settings. */
  lemma FatalExits(cmds: seq<Command>, tail: seq<Octet>, env: Env)
    requires AllPlain(cmds, env) && tail != [] && ParseCommand(tail).Fatal?
    ensures Load(EncodeLog(cmds) + tail, env) == Exit
  {
    hide ParseCommand, EncodeLog, AllPlain;
    var st := LoadPrefix(cmds, tail, 0, START, env);
  }

  /** Only an empty file is reported as empty. */
  lemma EmptyIff(file: seq<Octet>, env: Env)
    ensures Load(file, env) == EmptyFile <==> file == []
  {
    hide ParseCommand, RunCommand;
    if file != [] {
      NeverEmpty(file, 0, START, env);
    }
  }

  lemma {:induction false} NeverEmpty(s: seq<Octet>, offset: nat, st: Progress, env: Env)
    ensures LoadFrom(s, offset, st, env) != EmptyFile
    decreases |s|
  {
    hide ParseCommand, RunCommand;
    if s != [] && ParseCommand(s).Parsed? {
      var (argv, used) := (ParseCommand(s).argv, ParseCommand(s).used);
      if env.known(argv[0]) {
        NeverEmpty(s[used..], offset + used, RunCommand(st, argv, offset + used, env), env);
      }
    }
  }

  /** A command that does not begin with a star, or has no count, a zero byte or a count of zero behind it. */
  lemma BadCommandExits(cmds: seq<Command>, rest: seq<Octet>, env: Env)
    requires AllPlain(cmds, env)
    ensures rest != [] && rest[0] != STAR ==> Load(EncodeLog(cmds) + rest, env) == Exit
    ensures Load(EncodeLog(cmds) + ([STAR, LF] + rest), env) == Exit
    ensures Load(EncodeLog(cmds) + ([STAR, 0, LF] + rest), env) == Exit
    ensures Load(EncodeLog(cmds) + (Header(STAR, 0) + rest), env) == Exit
  {
    hide Load, EncodeLog, AllPlain, LineLength, Header;
    if rest != [] && rest[0] != STAR {
      FatalExits(cmds, rest, env);
    }
    LineOfText([STAR], [LF] + rest, LINE_MAX);
    assert [STAR] + ([LF] + rest) == [STAR, LF] + rest;
    LineFeedCounts([STAR, LF] + rest);
    FatalExits(cmds, [STAR, LF] + rest, env);
    LineOfText([STAR, 0], [LF] + rest, LINE_MAX);
    assert [STAR, 0] + ([LF] + rest) == [STAR, 0, LF] + rest;
    FatalExits(cmds, [STAR, 0, LF] + rest, env);
    HeaderLine(STAR, 0, rest);
    FatalExits(cmds, Header(STAR, 0) + rest, env);
  }

  lemma LineFeedCounts(s: seq<Octet>)
    requires |s| >= 2 && s[0] == STAR && s[1] == LF
    ensures LineLength(s, LINE_MAX) == 2 && ParseLong(s[1..2]) == 0
  {
    assert s[1..2] == [LF];
    assert s[1..2][1..] == [];
  }

  lemma {:induction false} ReadArgsThenBad(args: seq<Arg>, tail: seq<Octet>, n: nat)
    requires ValidArgs(args) && |args| < n && ReadArg(tail).ArgBad?
    ensures ReadArgs(EncodeArgs(args) + tail, n) == ArgsBad
    decreases |args|
  {
    hide ReadArg, EncodeArg;
    if args == [] {
      assert EncodeArgs(args) + tail == tail;
    } else {
      var rest := EncodeArgs(args[1..]) + tail;
      assert EncodeArgs(args) + tail == EncodeArg(args[0]) + rest;
      ReadArgWhole(args[0], rest);
      assert (EncodeArg(args[0]) + rest)[|EncodeArg(args[0])|..] == rest;
      ReadArgsThenBad(args[1..], tail, n - 1);
    }
  }

  /** An argument that does not begin with a dollar, or whose length is negative. */
  lemma BadArgumentExits(cmds: seq<Command>, args: seq<Arg>, n: nat, bad: seq<Octet>, len: nat, rest: seq<Octet>,
                         env: Env)
    requires AllPlain(cmds, env) && ValidArgs(args) && |args| < n < 0x8000_0000
    requires || (bad != [] && bad[0] != DOLLAR)
             || (0 < len < 0x8000_0000 && bad == [DOLLAR, 45] + Digits(len) + [CR, LF] + rest)
    ensures Load(EncodeLog(cmds) + (Header(STAR, n) + (EncodeArgs(args) + bad)), env) == Exit
  {
    hide Load, EncodeLog, AllPlain, Header, LineLength, ParseLong, ReadArgs, EncodeArgs;
    if bad[0] == DOLLAR {
      NegativeLength(len, bad, rest);
    }
    ReadArgsThenBad(args, bad, n);
    HeaderLine(STAR, n, EncodeArgs(args) + bad);
    FatalExits(cmds, Header(STAR, n) + (EncodeArgs(args) + bad), env);
  }

  lemma NegativeLength(len: nat, bad: seq<Octet>, rest: seq<Octet>)
    requires 0 < len < 0x8000_0000 && bad == [DOLLAR, 45] + Digits(len) + [CR, LF] + rest
    ensures ReadArg(bad).ArgBad?
  {
    hide LineLength, ParseLong;
    var text := [DOLLAR, 45] + Digits(len) + [CR];
    assert bad == text + ([LF] + rest);
    Pow10Of19();
    DigitsLength(len, 19);
    LineOfText(text, [LF] + rest, LINE_MAX);
    assert bad[1..|text| + 1] == [45] + (Digits(len) + [CR, LF]);
    SignedNumbers(len, [CR, LF]);
  }

  /** A command the server does not know. */
  lemma UnknownCommandExits(cmds: seq<Command>, argv: Command, rest: seq<Octet>, env: Env)
    requires AllPlain(cmds, env) && ValidCommand(argv) && !env.known(argv[0])
    ensures Load(EncodeLog(cmds) + (EncodeCommand(argv) + rest), env) == Exit
  {
    hide ParseCommand, EncodeLog, EncodeCommand, AllPlain;
    NonEmptyCommand(argv);
    ParseWhole(argv, rest);
    var st := LoadPrefix(cmds, EncodeCommand(argv) + rest, 0, START, env);
  }

  // ----- what stops early

  /** Without a working recovery, a cut log loads if and only if it is cut between two commands. */
  lemma CutWithoutRecovery(cmds: seq<Command>, cut: nat, env: Env)
    requires AllPlain(cmds, env) && 0 < cut <= |EncodeLog(cmds)| && !(env.loadTruncated && env.truncateOk)
    ensures var whole := cmds[..WholeCommands(cmds, cut)];
            Load(EncodeLog(cmds)[..cut], env) == if |EncodeLog(whole)| == cut then Loaded(whole, cut) else Exit
  {
    hide EncodeLog, EncodeCommand, AllPlain, LoadFrom, WholeCommands;
    var k := WholeCommands(cmds, cut);
    WholeCommandsFit(cmds, cut);
    var n := |EncodeLog(cmds[..k])|;
    assert cmds == cmds[..k] + cmds[k..];
    EncodeLogAppend(cmds[..k], cmds[k..]);
    assert AllPlain(cmds[..k], env) by { PartsPlain(cmds, k, env); }
    var tail := EncodeLog(cmds[k..])[..cut - n];
    assert EncodeLog(cmds)[..cut] == EncodeLog(cmds[..k]) + tail;
    var st := LoadPrefix(cmds[..k], tail, 0, START, env);
    assert [] + cmds[..k] == cmds[..k];
    if cut == n {
      assert tail == [];
      LoadNothing(n, st, env);
    } else {
      TailIsCut(cmds, k, cut - n, env);
      ShortExits(tail, n, st, env);
    }
  }

  lemma PartsPlain(cmds: seq<Command>, k: nat, env: Env)
    requires AllPlain(cmds, env) && k <= |cmds|
    ensures AllPlain(cmds[..k], env) && (k < |cmds| ==> ValidCommand(cmds[k]))
  {
    if k < |cmds| {
      assert Plain(cmds[k], env);
    }
  }

  lemma TailIsCut(cmds: seq<Command>, k: nat, cut: nat, env: Env)
    requires AllPlain(cmds, env) && k <= |cmds| && 0 < cut <= |EncodeLog(cmds[k..])|
    requires k < |cmds| ==> cut < |EncodeCommand(cmds[k])|
    ensures ParseCommand(EncodeLog(cmds[k..])[..cut]) == ShortRead
  {
    hide EncodeCommand, AllPlain, ParseCommand;
    PartsPlain(cmds, k, env);
    if k < |cmds| {
      assert EncodeLog(cmds[k..])[..cut] == EncodeCommand(cmds[k])[..cut];
      ParseCut(cmds[k], cut);
    }
  }

  lemma ShortExits(tail: seq<Octet>, offset: nat, st: Progress, env: Env)
    requires tail != [] && ParseCommand(tail) == ShortRead && !(env.loadTruncated && env.truncateOk)
    ensures LoadFrom(tail, offset, st, env) == Exit
  {
  }

  // ----- what is not looked at

  /** The two bytes behind an argument may be anything. */
  lemma EndOfArgumentIgnored(a: Arg, x: Octet, y: Octet, rest: seq<Octet>)
    requires |a| < 0x8000_0000_0000_0000
    ensures ReadArg(Header(DOLLAR, |a|) + a + [x, y] + rest) == Arg(a, |EncodeArg(a)|)
  {
    hide LineLength, ParseLong, Header;
    var tail := a + [x, y] + rest;
    var s, h := Header(DOLLAR, |a|) + a + [x, y] + rest, |Header(DOLLAR, |a|)|;
    assert s == Header(DOLLAR, |a|) + tail;
    HeaderLine(DOLLAR, |a|, tail);
    assert s[h..h + |a|] == a;
  }
}
