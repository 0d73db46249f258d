/**
 The append only file as a log of commands: the printer catAppendOnlyGenericCommand, the
 loader loadAppendOnlyFile, and what loading gives back, for whole logs and for logs cut
 at any byte.
 */
module AofLog {
  type Octet = c: int | 0 <= c < 256
  type Arg = seq<Octet>
  type Command = seq<Arg>

  const CR: Octet := 13
  const LF: Octet := 10
  const STAR: Octet := 42
  const DOLLAR: Octet := 36
  const LINE_MAX: nat := 127  // fgets into a buffer of 128 bytes

  // ----- numbers

  predicate IsDigit(c: Octet) { 48 <= c <= 57 }

  /** ll2string, for the non-negative numbers the log holds. */
  function Digits(n: nat): (r: seq<Octet>)
    ensures r != [] && forall i :: 0 <= i < |r| ==> IsDigit(r[i])
  {
    if n < 10 then [48 + n] else Digits(n / 10) + [48 + n % 10]
  }

  predicate IsSpace(c: Octet) { c == 32 || 9 <= c <= 13 }

  /** The digits at the start of t, read after acc. */
  function DigitsValue(acc: nat, t: seq<Octet>): (r: nat)
    ensures r >= acc
    decreases |t|
  {
    if t == [] || !IsDigit(t[0]) then acc else DigitsValue(acc * 10 + (t[0] - 48), t[1..])
  }

  /** atoi and strtol on a text: spaces, a sign, digits, and nothing after the first other byte. */
  function ParseLong(t: seq<Octet>): int {
    if t == [] then 0
    else if IsSpace(t[0]) then ParseLong(t[1..])
    else if t[0] == 45 then 0 - DigitsValue(0, t[1..])
    else if t[0] == 43 then DigitsValue(0, t[1..])
    else DigitsValue(0, t)
  }

  lemma {:induction false} DigitsValueAppend(acc: nat, a: seq<Octet>, b: seq<Octet>)
    requires forall i :: 0 <= i < |a| ==> IsDigit(a[i])
    ensures DigitsValue(acc, a + b) == DigitsValue(DigitsValue(acc, a), b)
    decreases |a|
  {
    if a == [] {
      assert a + b == b;
    } else {
      assert (a + b)[1..] == a[1..] + b;
      DigitsValueAppend(acc * 10 + (a[0] - 48), a[1..], b);
    }
  }

  lemma {:induction false} DigitsRoundTrip(n: nat)
    ensures DigitsValue(0, Digits(n)) == n
  {
    if n >= 10 {
      DigitsRoundTrip(n / 10);
      DigitsValueAppend(0, Digits(n / 10), [48 + n % 10]);
    }
  }

  lemma ParseLongRoundTrip(n: nat, rest: seq<Octet>)
    requires rest == [] || !IsDigit(rest[0])
    ensures ParseLong(Digits(n) + rest) == n
  {
    DigitsRoundTrip(n);
    DigitsValueAppend(0, Digits(n), rest);
    assert (Digits(n) + rest)[0] == Digits(n)[0];
  }

  lemma {:induction false} LeadingDigit(n: nat)
    requires n > 0
    ensures Digits(n)[0] > 48
  {
    if n >= 10 {
      LeadingDigit(n / 10);
    }
  }

  /** A number cut short is still a number, and a positive one stays positive. */
  lemma ParseLongOfPrefix(n: nat, k: nat, rest: seq<Octet>)
    requires k <= |Digits(n)| && (rest == [] || !IsDigit(rest[0])) && (rest != [] ==> k > 0)
    ensures ParseLong(Digits(n)[..k] + rest) >= 0
    ensures n > 0 && k > 0 ==> ParseLong(Digits(n)[..k] + rest) > 0
  {
    var t := Digits(n)[..k] + rest;
    if k > 0 {
      assert t[0] == Digits(n)[0];
      if n > 0 {
        LeadingDigit(n);
      }
    } else {
      assert t == [];
    }
  }

  function Pow10(k: nat): nat {
    if k == 0 then 1 else 10 * Pow10(k - 1)
  }

  lemma Pow10Of19()
    ensures Pow10(19) == 10000000000000000000
  {
    assert Pow10(4) == 10000;
    assert Pow10(8) == 10000 * Pow10(4);
    assert Pow10(12) == 10000 * Pow10(8);
    assert Pow10(16) == 10000 * Pow10(12);
    assert Pow10(19) == 1000 * Pow10(16);
  }

  lemma {:induction false} DigitsLength(n: nat, k: nat)
    requires 0 < k && n < Pow10(k)
    ensures |Digits(n)| <= k
  {
    if n >= 10 {
      DigitsLength(n / 10, k - 1);
    }
  }

  // ----- printing

  function Header(c: Octet, n: nat): seq<Octet> {
    [c] + Digits(n) + [CR, LF]
  }

  function EncodeArg(a: Arg): seq<Octet> {
    Header(DOLLAR, |a|) + a + [CR, LF]
  }

  function EncodeArgs(args: seq<Arg>): seq<Octet> {
    if args == [] then [] else EncodeArg(args[0]) + EncodeArgs(args[1..])
  }

  function EncodeCommand(argv: Command): seq<Octet> {
    Header(STAR, |argv|) + EncodeArgs(argv)
  }

  function EncodeLog(cmds: seq<Command>): seq<Octet> {
    if cmds == [] then [] else EncodeCommand(cmds[0]) + EncodeLog(cmds[1..])
  }

  lemma {:induction false} EncodeArgsSnoc(args: seq<Arg>, a: Arg)
    ensures EncodeArgs(args + [a]) == EncodeArgs(args) + EncodeArg(a)
  {
    if args == [] {
      assert [a][1..] == [];
      assert args + [a] == [a];
    } else {
      assert (args + [a])[1..] == args[1..] + [a];
      EncodeArgsSnoc(args[1..], a);
    }
  }

  lemma {:induction false} EncodeLogAppend(a: seq<Command>, b: seq<Command>)
    ensures EncodeLog(a + b) == EncodeLog(a) + EncodeLog(b)
  {
    if a == [] {
      assert a + b == b;
    } else {
      assert (a + b)[1..] == a[1..] + b;
      EncodeLogAppend(a[1..], b);
    }
  }

  lemma NoArgs(argv: Command)
    ensures EncodeArgs(argv[..0]) == []
  {
  }

  /** catAppendOnlyGenericCommand */
  method CatAppendOnlyGenericCommand(dst: seq<Octet>, argv: Command) returns (r: seq<Octet>)
    ensures r == dst + EncodeCommand(argv)
  {
    hide Header, EncodeArgs;
    r := dst + Header(STAR, |argv|);
    ghost var head := r;
    NoArgs(argv);
    assert r == head + [];
    for j := 0 to |argv|
      invariant r == head + EncodeArgs(argv[..j])
    {
      EncodeArgsSnoc(argv[..j], argv[j]);
      assert argv[..j + 1] == argv[..j] + [argv[j]];
      ghost var before := EncodeArgs(argv[..j]);
      r := r + Header(DOLLAR, |argv[j]|);
      r := r + argv[j];
      r := r + [CR, LF];
      assert r == head + (before + EncodeArg(argv[j]));
    }
    assert argv[..|argv|] == argv;
  }

  // ----- reading

  /** How many bytes fgets takes from s. */
  function LineLength(s: seq<Octet>, limit: nat): (r: nat)
    ensures r <= |s| && r <= limit
    ensures s != [] && limit > 0 ==> r > 0
  {
    if s == [] || limit == 0 then 0
    else if s[0] == LF then 1
    else 1 + LineLength(s[1..], limit - 1)
  }

  /** fgets stopped at the end of the file and not at a line feed or a full buffer. */
  predicate HitEof(s: seq<Octet>) {
    var l := LineLength(s, LINE_MAX);
    l == |s| && l < LINE_MAX && (l == 0 || s[l - 1] != LF)
  }

  datatype ArgResult = Arg(value: Arg, used: nat) | ArgShort | ArgBad

  function ReadArg(s: seq<Octet>): (r: ArgResult)
    ensures r.Arg? ==> 0 < r.used <= |s|
  {
    if s == [] then ArgShort
    else if s[0] != DOLLAR then ArgBad
    else
      var l := LineLength(s, LINE_MAX);
      var len := ParseLong(s[1..l]);
      if len < 0 then ArgBad
      else if |s| < l + len + 2 then ArgShort
      else Arg(s[l..l + len], l + len + 2)
  }

  datatype ArgsResult = Args(values: seq<Arg>, used: nat) | ArgsShort | ArgsBad

  function ReadArgs(s: seq<Octet>, n: nat): (r: ArgsResult)
    ensures r.Args? ==> r.used <= |s| && |r.values| == n
    decreases n
  {
    if n == 0 then Args([], 0)
    else
      match ReadArg(s)
      case ArgShort => ArgsShort
      case ArgBad => ArgsBad
      case Arg(a, used) =>
        match ReadArgs(s[used..], n - 1)
        case Args(rest, more) => Args([a] + rest, used + more)
        case other => other
  }

  datatype Parsed = Parsed(argv: Command, used: nat) | ShortRead | Fatal

  /** One command of the loop of loadAppendOnlyFile, from a file that is not at its end. */
  function ParseCommand(s: seq<Octet>): (r: Parsed)
    requires s != []
    ensures r.Parsed? ==> 0 < r.used <= |s| && r.argv != []
  {
    var l := LineLength(s, LINE_MAX);
    if s[0] != STAR then Fatal
    else if l == 1 || s[1] == 0 then (if HitEof(s) then ShortRead else Fatal)
    else
      var argc := ParseLong(s[1..l]);
      if argc < 1 then Fatal
      else
        match ReadArgs(s[l..], argc)
        case Args(argv, used) => Parsed(argv, l + used)
        case ArgsShort => ShortRead
        case ArgsBad => Fatal
  }

  // ----- what a printed command parses to

  /** The sizes an int and a long can hold. */
  predicate ValidCommand(argv: Command) {
    0 < |argv| < 0x8000_0000 && forall i :: 0 <= i < |argv| ==> |argv[i]| < 0x8000_0000_0000_0000
  }

  predicate ValidArgs(args: seq<Arg>) {
    forall i :: 0 <= i < |args| ==> |args[i]| < 0x8000_0000_0000_0000
  }

  lemma {:induction false} LineOfText(text: seq<Octet>, rest: seq<Octet>, limit: nat)
    requires (forall i :: 0 <= i < |text| ==> text[i] != LF) && |text| < limit
    ensures rest == [] ==> LineLength(text + rest, limit) == |text|
    ensures rest != [] && rest[0] == LF ==> LineLength(text + rest, limit) == |text| + 1
    decreases |text|
  {
    if text == [] {
      assert text + rest == rest;
    } else {
      assert (text + rest)[1..] == text[1..] + rest;
      LineOfText(text[1..], rest, limit - 1);
    }
  }

  lemma HeaderShape(c: Octet, n: nat)
    requires n < 0x8000_0000_0000_0000 && c != LF
    ensures |Header(c, n)| < 30 && Header(c, n)[0] == c
    ensures Header(c, n) == [c] + Digits(n) + [CR] + [LF]
    ensures forall i :: 0 <= i < |Header(c, n)| - 1 ==> Header(c, n)[i] != LF
  {
    Pow10Of19();
    DigitsLength(n, 19);
  }

  /** A whole header line: fgets takes exactly it, and its number reads back. */
  lemma HeaderLine(c: Octet, n: nat, rest: seq<Octet>)
    requires n < 0x8000_0000_0000_0000 && c != LF
    ensures var s, h := Header(c, n) + rest, |Header(c, n)|;
            && LineLength(s, LINE_MAX) == h && 2 < h < |s| + 1 && s[0] == c && s[1] != 0
            && ParseLong(s[1..h]) == n
            && s[h..] == rest
  {
    HeaderShape(c, n);
    var head := [c] + Digits(n) + [CR];
    assert Header(c, n) + rest == head + ([LF] + rest);
    LineOfText(head, [LF] + rest, LINE_MAX);
    var s, h := Header(c, n) + rest, |Header(c, n)|;
    assert s[1..h] == Digits(n) + [CR, LF];
    ParseLongRoundTrip(n, [CR, LF]);
    assert s[1] == Digits(n)[0];
  }

  /** A header line cut short: fgets takes all there is, at the end of the file. */
  lemma HeaderCut(c: Octet, n: nat, k: nat)
    requires n < 0x8000_0000_0000_0000 && c != LF && 0 < k < |Header(c, n)|
    ensures var s := Header(c, n)[..k];
            && LineLength(s, LINE_MAX) == k && HitEof(s) && s[0] == c && (k > 1 ==> s[1] != 0)
            && ParseLong(s[1..k]) >= 0
            && (n > 0 && k > 1 ==> ParseLong(s[1..k]) > 0)
  {
    HeaderShape(c, n);
    var s := Header(c, n)[..k];
    assert s + [] == s;
    LineOfText(s, [], LINE_MAX);
    var d := |Digits(n)|;
    if k <= d + 1 {
      assert s[1..k] == Digits(n)[..k - 1] + [];
      ParseLongOfPrefix(n, k - 1, []);
    } else {
      assert s[1..k] == Digits(n)[..d] + [CR];
      ParseLongOfPrefix(n, d, [CR]);
    }
    if k > 1 {
      assert s[1] == Digits(n)[0];
    }
  }

  lemma ReadArgWhole(a: Arg, rest: seq<Octet>)
    requires |a| < 0x8000_0000_0000_0000
    ensures ReadArg(EncodeArg(a) + rest) == Arg(a, |EncodeArg(a)|)
  {
    var tail := a + [CR, LF] + rest;
    assert EncodeArg(a) + rest == Header(DOLLAR, |a|) + tail;
    HeaderLine(DOLLAR, |a|, tail);
    var s, h := EncodeArg(a) + rest, |Header(DOLLAR, |a|)|;
    assert s[h..h + |a|] == a;
  }

  lemma ReadArgCut(a: Arg, k: nat)
    requires |a| < 0x8000_0000_0000_0000 && k < |EncodeArg(a)|
    ensures ReadArg(EncodeArg(a)[..k]) == ArgShort
  {
    var s, h := EncodeArg(a)[..k], |Header(DOLLAR, |a|)|;
    if 0 < k < h {
      assert s == Header(DOLLAR, |a|)[..k];
      HeaderCut(DOLLAR, |a|, k);
    } else if k >= h {
      var tail := (a + [CR, LF])[..k - h];
      assert s == Header(DOLLAR, |a|) + tail;
      HeaderLine(DOLLAR, |a|, tail);
    }
  }

  lemma {:induction false} ReadArgsWhole(args: seq<Arg>, rest: seq<Octet>)
    requires ValidArgs(args)
    ensures ReadArgs(EncodeArgs(args) + rest, |args|) == Args(args, |EncodeArgs(args)|)
  {
    if args != [] {
      var a, more := args[0], args[1..];
      ReadArgsWhole(more, rest);
      assert EncodeArgs(args) + rest == EncodeArg(a) + (EncodeArgs(more) + rest);
      ReadArgWhole(a, EncodeArgs(more) + rest);
      assert (EncodeArgs(args) + rest)[|EncodeArg(a)|..] == EncodeArgs(more) + rest;
      assert [a] + more == args;
    }
  }

  lemma {:induction false} ReadArgsCut(args: seq<Arg>, k: nat)
    requires ValidArgs(args) && k < |EncodeArgs(args)|
    ensures ReadArgs(EncodeArgs(args)[..k], |args|) == ArgsShort
  {
    var a, more := args[0], args[1..];
    var s := EncodeArgs(args)[..k];
    if k < |EncodeArg(a)| {
      assert s == EncodeArg(a)[..k];
      ReadArgCut(a, k);
    } else {
      var rest := EncodeArgs(more)[..k - |EncodeArg(a)|];
      assert s == EncodeArg(a) + rest;
      ReadArgWhole(a, rest);
      assert s[|EncodeArg(a)|..] == rest;
      ReadArgsCut(more, k - |EncodeArg(a)|);
    }
  }

  /** A printed command reads back as itself, whatever bytes its arguments hold and whatever follows. */
  lemma ParseWhole(argv: Command, rest: seq<Octet>)
    requires ValidCommand(argv)
    ensures ParseCommand(EncodeCommand(argv) + rest) == Parsed(argv, |EncodeCommand(argv)|)
  {
    var tail := EncodeArgs(argv) + rest;
    assert EncodeCommand(argv) + rest == Header(STAR, |argv|) + tail;
    HeaderLine(STAR, |argv|, tail);
    ReadArgsWhole(argv, rest);
  }

  /** A printed command cut anywhere is a short read, never a wrong command and never a format error. */
  lemma ParseCut(argv: Command, k: nat)
    requires ValidCommand(argv) && 0 < k < |EncodeCommand(argv)|
    ensures ParseCommand(EncodeCommand(argv)[..k]) == ShortRead
  {
    var s, h := EncodeCommand(argv)[..k], |Header(STAR, |argv|)|;
    if k < h {
      assert s == Header(STAR, |argv|)[..k];
      HeaderCut(STAR, |argv|, k);
      assert s[k..] == [];
      assert forall n: nat :: n > 0 ==> ReadArgs([], n) == ArgsShort;
    } else {
      var tail := EncodeArgs(argv)[..k - h];
      assert s == Header(STAR, |argv|) + tail;
      HeaderLine(STAR, |argv|, tail);
      ReadArgsCut(argv, k - h);
    }
  }
}
