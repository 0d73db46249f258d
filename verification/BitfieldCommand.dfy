/**
 The BITFIELD command: a list of operations on one string, executed in order on a string
 that was first grown, with zeros, up to the last bit any of them writes. The string and the
 replies are a fold over the operations, one command is as good as two, and a field holds
 what the last operation that touched it stored.
 */
module BitfieldCommand {
  import opened Prelude
  import opened Bitpos
  import opened Bitfield

  datatype Op =
    | Get(offset: nat, bits: nat, sign: bool)
    | Write(write: WriteOp)

  predicate ValidCommand(ops: seq<Op>) {
    forall i :: 0 <= i < |ops| ==> Admitted(ops[i])
  }

  /** What the parser lets through: i1 to i64 and u1 to u63. */
  predicate Admitted(op: Op) {
    match op
    case Get(_, bits, sign) => 1 <= bits <= 64 && (!sign ==> bits <= 63)
    case Write(w) => ValidOp(w)
  }

  // ----- what a command does

  /** The string, the replies in order, and the count of changes: every write, a suppressed one too. */
  datatype Outcome = Outcome(text: seq<Byte>, replies: seq<Option<int>>, changes: nat)

  function Reads(s: seq<Byte>, offset: nat, bits: nat, sign: bool): int
    requires bits >= 1
  {
    if sign then Signed(s, offset, bits) else Unsigned(s, offset, bits)
  }

  predicate Within(op: Op, bytes: nat) {
    op.Write? ==> op.write.offset + op.write.bits <= 8 * bytes
  }

  predicate AllWithin(ops: seq<Op>, bytes: nat) {
    forall i :: 0 <= i < |ops| ==> Within(ops[i], bytes)
  }

  /** One operation on a string that holds every bit it writes. */
  function Step(s: seq<Byte>, op: Op): (r: Outcome)
    requires Admitted(op) && Within(op, |s|)
    ensures |r.text| == |s| && |r.replies| == 1
  {
    match op
    case Get(offset, bits, sign) => Outcome(s, [Some(Reads(s, offset, bits, sign))], 0)
    case Write(w) =>
      var current := Field(s, w);
      match Stored(w, current)
      case None => Outcome(s, [None], 1)
      case Some(v) => Outcome(AfterStore(s, w, v), [Some(if w.kind.IncrBy? then v else current)], 1)
  }

  /** The operations one after the other. */
  function Run(s: seq<Byte>, ops: seq<Op>): (r: Outcome)
    requires ValidCommand(ops) && AllWithin(ops, |s|)
    ensures |r.text| == |s| && |r.replies| == |ops|
  {
    if ops == [] then Outcome(s, [], 0)
    else
      var n := |ops| - 1;
      var before := Run(s, ops[..n]);
      var last := Step(before.text, ops[n]);
      Outcome(last.text, before.replies + last.replies, before.changes + last.changes)
  }

  /** The bytes the writes of a command need; none when it only reads. */
  function Needed(ops: seq<Op>): (n: nat)
    requires ValidCommand(ops)
    ensures AllWithin(ops, n)
  {
    if ops == [] then 0
    else
      var rest := Needed(ops[..|ops| - 1]);
      var op := ops[|ops| - 1];
      if op.Get? then rest else Larger(rest, (op.write.offset + op.write.bits - 1) / 8 + 1)
  }

  function Larger(a: nat, b: nat): nat {
    if a < b then b else a
  }

  /** A string grown with zeros. */
  function Grown(s: seq<Byte>, bytes: nat): (r: seq<Byte>)
    ensures |r| == Larger(|s|, bytes)
  {
    if |s| < bytes then s + seq(bytes - |s|, _ => 0) else s
  }

  function Command(s: seq<Byte>, ops: seq<Op>): Outcome
    requires ValidCommand(ops)
  {
    Run(Grown(s, Needed(ops)), ops)
  }

  // ----- the loops

  /** The first pass: whether the command only reads, and the last bit it writes. */
  method HighestWrite(ops: seq<Op>) returns (readonly: bool, highest: nat)
    requires ValidCommand(ops)
    ensures readonly <==> forall i :: 0 <= i < |ops| ==> ops[i].Get?
    ensures Needed(ops) == if readonly then 0 else highest / 8 + 1
  {
    readonly, highest := true, 0;
    for j := 0 to |ops|
      invariant readonly <==> forall i :: 0 <= i < j ==> ops[i].Get?
      invariant readonly ==> highest == 0
      invariant Needed(ops[..j]) == if readonly then 0 else highest / 8 + 1
    {
      assert ops[..j + 1][..j] == ops[..j] && ops[..j + 1][j] == ops[j];
      if ops[j].Write? {
        assert Admitted(ops[j]);
        readonly := false;
        var end := ops[j].write.offset + ops[j].write.bits - 1;
        if highest < end {
          highest := end;
        }
      }
    }
    assert ops[..|ops|] == ops;
  }

  /** The string in a buffer of its own, with room for the writes. */
  method MakeRoom(s: seq<Byte>, readonly: bool, highest: nat) returns (p: array<Byte>)
    ensures fresh(p) && p[..] == Grown(s, if readonly then 0 else highest / 8 + 1)
  {
    var length := if readonly then |s| else Larger(|s|, highest / 8 + 1);
    p := new Byte[length](i => if 0 <= i < |s| then s[i] else 0);
  }

  /** One turn of the execution loop. */
  method ExecuteOne(p: array<Byte>, op: Op) returns (reply: Option<int>, changed: bool)
    requires Admitted(op) && Within(op, p.Length)
    modifies p
    ensures Step(old(p[..]), op) == Outcome(p[..], [reply], if changed then 1 else 0)
  {
    hide Signed, Unsigned, Stored, Field, ToBits, AfterStore, Written;
    match op
    case Get(offset, bits, sign) =>
      var value := ExecuteGet(p[..], offset, bits, sign);
      return Some(value), false;
    case Write(w) =>
      reply := ExecuteWrite(p, w);
      changed := true;
  }

  /** The command: it replies and leaves the string as the fold over its operations says. */
  method Execute(s: seq<Byte>, ops: seq<Op>) returns (text: seq<Byte>, replies: seq<Option<int>>, changes: nat)
    requires ValidCommand(ops)
    ensures Command(s, ops) == Outcome(text, replies, changes)
  {
    hide Step, Grown;
    var readonly, highest := HighestWrite(ops);
    var p := MakeRoom(s, readonly, highest);
    ghost var start := p[..];
    replies, changes := [], 0;
    for j := 0 to |ops|
      invariant p.Length == |start|
      invariant Run(start, ops[..j]) == Outcome(p[..], replies, changes)
    {
      assert ops[..j + 1][..j] == ops[..j] && ops[..j + 1][j] == ops[j];
      assert Within(ops[j], |start|) && Admitted(ops[j]);
      var reply, changed := ExecuteOne(p, ops[j]);
      replies := replies + [reply];
      if changed {
        changes := changes + 1;
      }
    }
    assert ops[..|ops|] == ops;
    text := p[..];
  }

  // ----- growing changes nothing a command can see

  lemma GrownBits(s: seq<Byte>, bytes: nat, i: nat)
    ensures BitOf(Grown(s, bytes), i) == BitOf(s, i)
  {
    hide TestBit;
    SkippedByte(0, true, i % 8);
    if i < 8 * |s| {
      assert Grown(s, bytes)[i / 8] == s[i / 8];
    } else if i < 8 * |Grown(s, bytes)| {
      assert Grown(s, bytes)[i / 8] == 0;
    }
  }

  /** Every field of the grown string reads as it did. */
  lemma GrownReads(s: seq<Byte>, bytes: nat, offset: nat, bits: nat)
    ensures Unsigned(Grown(s, bytes), offset, bits) == Unsigned(s, offset, bits)
  {
    hide BitOf, Grown;
    forall j | 0 <= j < bits
      ensures Row(Grown(s, bytes), offset, bits)[j] == Row(s, offset, bits)[j]
    {
      GrownBits(s, bytes, offset + j);
    }
    assert Row(Grown(s, bytes), offset, bits) == Row(s, offset, bits);
  }

  lemma {:induction false} GrownWrites(s: seq<Byte>, bytes: nat, offset: nat, row: seq<bool>)
    requires offset + |row| <= 8 * |s|
    ensures WriteRow(Grown(s, bytes), offset, row) == Grown(WriteRow(s, offset, row), bytes)
    decreases |row|
  {
    hide PutBit;
    if row != [] {
      GrownWrites(s, bytes, offset, row[..|row| - 1]);
    }
  }

  lemma GrownStep(s: seq<Byte>, bytes: nat, op: Op)
    requires Admitted(op) && Within(op, |s|)
    ensures Step(Grown(s, bytes), op) == Step(s, op).(text := Grown(Step(s, op).text, bytes))
  {
    hide Grown, WriteRow, Unsigned, Stored, ToBits, Pow2;
    match op
    case Get(offset, bits, sign) =>
      GrownReads(s, bytes, offset, bits);
    case Write(w) =>
      GrownReads(s, bytes, w.offset, w.bits);
      var current := Field(s, w);
      if Stored(w, current).Some? {
        GrownWrites(s, bytes, w.offset, ToBits(ToUnsigned(Stored(w, current).value), w.bits));
      }
  }

  /** Room that no write needs changes no reply, and is left as zeros. */
  lemma {:induction false} GrownRun(s: seq<Byte>, bytes: nat, ops: seq<Op>)
    requires ValidCommand(ops) && AllWithin(ops, |s|)
    ensures Run(Grown(s, bytes), ops) == Run(s, ops).(text := Grown(Run(s, ops).text, bytes))
    decreases |ops|
  {
    hide Step, Grown;
    if ops != [] {
      var n := |ops| - 1;
      GrownRun(s, bytes, ops[..n]);
      GrownStep(Run(s, ops[..n]).text, bytes, ops[n]);
    }
  }

  // ----- one command is as good as two

  lemma {:induction false} RunAppend(s: seq<Byte>, a: seq<Op>, b: seq<Op>)
    requires ValidCommand(a) && ValidCommand(b) && AllWithin(a, |s|) && AllWithin(b, |s|)
    ensures ValidCommand(a + b) && AllWithin(a + b, |s|)
    ensures var first := Run(s, a);
            var second := Run(first.text, b);
            Run(s, a + b)
            == Outcome(second.text, first.replies + second.replies, first.changes + second.changes)
    decreases |b|
  {
    hide Step, Admitted, Within;
    if b == [] {
      assert a + b == a;
    } else {
      var n := |b| - 1;
      RunAppend(s, a, b[..n]);
      assert (a + b)[..|a + b| - 1] == a + b[..n];
      assert (a + b)[|a + b| - 1] == b[n];
      var first := Run(s, a);
      assert first.replies + Run(first.text, b).replies
          == (first.replies + Run(first.text, b[..n]).replies)
             + Step(Run(first.text, b[..n]).text, b[n]).replies;
    }
  }

  lemma {:induction false} NeededAppend(a: seq<Op>, b: seq<Op>)
    requires ValidCommand(a) && ValidCommand(b)
    ensures ValidCommand(a + b) && Needed(a + b) == Larger(Needed(a), Needed(b))
    decreases |b|
  {
    hide Admitted;
    if b == [] {
      assert a + b == a;
    } else {
      var n := |b| - 1;
      NeededAppend(a, b[..n]);
      assert (a + b)[..|a + b| - 1] == a + b[..n];
      assert (a + b)[|a + b| - 1] == b[n];
    }
  }

  lemma GrownTwice(s: seq<Byte>, m: nat, n: nat)
    ensures Grown(Grown(s, m), n) == Grown(s, Larger(m, n))
  {
  }

  /**
   A command of many operations does what two commands of its halves do: the same string,
   the same replies, the same count of changes.
   */
  lemma OneCommandOrTwo(s: seq<Byte>, a: seq<Op>, b: seq<Op>)
    requires ValidCommand(a) && ValidCommand(b)
    ensures ValidCommand(a + b)
    ensures var first := Command(s, a);
            var second := Command(first.text, b);
            Command(s, a + b)
            == Outcome(second.text, first.replies + second.replies, first.changes + second.changes)
  {
    hide Run, Needed, Grown;
    NeededAppend(a, b);
    var one := Grown(s, Needed(a));
    var both := Grown(s, Needed(a + b));
    GrownTwice(s, Needed(a), Needed(b));
    RunAppend(both, a, b);
    GrownRun(one, Needed(b), a);
  }

  // ----- the last operation that touched a field

  /** The operation writes no bit of the field. */
  predicate Misses(op: Op, offset: nat, bits: nat) {
    op.Write? ==> op.write.offset + op.write.bits <= offset || offset + bits <= op.write.offset
  }

  lemma StepMisses(s: seq<Byte>, op: Op, offset: nat, bits: nat)
    requires Admitted(op) && Within(op, |s|) && Misses(op, offset, bits)
    ensures Unsigned(Step(s, op).text, offset, bits) == Unsigned(s, offset, bits)
  {
    hide WriteRow, Written, Unsigned, Stored, ToBits, Pow2;
    if op.Write? && Stored(op.write, Field(s, op.write)).Some? {
      var w := op.write;
      var row := ToBits(ToUnsigned(Stored(w, Field(s, w)).value), w.bits);
      WriteRowWrites(s, w.offset, row);
      OtherFieldsKept(s, AfterStore(s, w, Stored(w, Field(s, w)).value), w.offset, row, offset, bits);
    }
  }

  lemma {:induction false} RunMisses(s: seq<Byte>, ops: seq<Op>, offset: nat, bits: nat)
    requires ValidCommand(ops) && AllWithin(ops, |s|)
    requires forall i :: 0 <= i < |ops| ==> Misses(ops[i], offset, bits)
    ensures Unsigned(Run(s, ops).text, offset, bits) == Unsigned(s, offset, bits)
    decreases |ops|
  {
    hide Step, Unsigned, Misses;
    if ops != [] {
      var n := |ops| - 1;
      RunMisses(s, ops[..n], offset, bits);
      StepMisses(Run(s, ops[..n]).text, ops[n], offset, bits);
    }
  }

  /**
   After a command, a field one of its operations wrote and no later one touched holds what
   that operation stored; a write that FAIL suppressed leaves what the earlier ones left.
   */
  lemma LastWriteWins(s: seq<Byte>, a: seq<Op>, w: WriteOp, b: seq<Op>)
    requires ValidCommand(a) && ValidOp(w) && ValidCommand(b)
    requires forall i :: 0 <= i < |b| ==> Misses(b[i], w.offset, w.bits)
    ensures ValidCommand(a + [Write(w)] + b)
    ensures var earlier := Field(Command(s, a).text, w);
            Field(Command(s, a + [Write(w)] + b).text, w)
            == if Stored(w, earlier).Some? then Stored(w, earlier).value else earlier
  {
    hide Run, Needed, Grown, Step, Stored, Misses, Pow2, Unsigned;
    OneCommandOrTwo(s, a, [Write(w)]);
    OneCommandOrTwo(s, a + [Write(w)], b);
    var first := Command(s, a).text;
    var second := Command(first, [Write(w)]).text;
    var room := Grown(second, Needed(b));
    RunMisses(room, b, w.offset, w.bits);
    GrownReads(second, Needed(b), w.offset, w.bits);
    GrownReads(first, Needed([Write(w)]), w.offset, w.bits);
    assert Within([Write(w)][0], Needed([Write(w)]));
    SingleWrite(Grown(first, Needed([Write(w)])), w);
  }

  lemma SingleWrite(s: seq<Byte>, w: WriteOp)
    requires ValidOp(w) && w.offset + w.bits <= 8 * |s|
    ensures ValidCommand([Write(w)]) && AllWithin([Write(w)], |s|)
    ensures var current := Field(s, w);
            Field(Run(s, [Write(w)]).text, w)
            == if Stored(w, current).Some? then Stored(w, current).value else current
  {
    hide Stored, Field, AfterStore;
    assert [Write(w)][..0] == [];
    assert Run(s, [Write(w)]).text == Step(s, Write(w)).text;
    if Stored(w, Field(s, w)).Some? {
      StoredFits(w, Field(s, w));
      StoreThenRead(s, w, Stored(w, Field(s, w)).value);
    }
  }

  // ----- what the replies mean

  lemma OneOp(s: seq<Byte>, op: Op)
    requires Admitted(op)
    ensures ValidCommand([op])
    ensures var n := Needed([op]);
            Within(op, |Grown(s, n)|) && Command(s, [op]) == Step(Grown(s, n), op)
  {
    hide Step, Grown;
    var n := Needed([op]);
    assert Within([op][0], n);
    var room := Grown(s, n);
    var last := Step(room, op);
    assert [op][..0] == [];
    assert Run(room, [op][..0]) == Outcome(room, [], 0);
    assert [] + last.replies == last.replies;
  }

  /** A GET replies with the field as the operations before it left it, and changes nothing. */
  lemma GetReplies(s: seq<Byte>, a: seq<Op>, g: Op)
    requires ValidCommand(a) && Admitted(g) && g.Get?
    ensures ValidCommand(a + [g])
    ensures var before := Command(s, a);
            Command(s, a + [g])
            == before.(replies := before.replies + [Some(Reads(before.text, g.offset, g.bits, g.sign))])
  {
    hide Run, Signed, Unsigned, Needed, Command;
    OneOp(s, g);
    OneCommandOrTwo(s, a, [g]);
    var before := Command(s, a);
    OneOp(before.text, g);
    NothingNeeded(g);
  }

  lemma NothingNeeded(g: Op)
    requires Admitted(g) && g.Get?
    ensures ValidCommand([g]) && Needed([g]) == 0
  {
    assert [g][..0] == [];
  }

  /**
   SET replies with what a GET before it would reply, INCRBY with what a GET behind it does;
   the reply is null, and the field as before, if and only if the value asked for does not
   fit and the overflow type is FAIL.
   */
  lemma WriteReplies(s: seq<Byte>, a: seq<Op>, w: WriteOp)
    requires ValidCommand(a) && ValidOp(w)
    ensures ValidCommand(a + [Write(w)])
    ensures var before, after := Command(s, a), Command(s, a + [Write(w)]);
            var was, now := Field(before.text, w), Field(after.text, w);
            var fits := InRange(if w.kind.IncrBy? then was + w.i64 else if w.sign then w.i64 else ToUnsigned(w.i64),
                                w.bits, w.sign);
            && after.changes == before.changes + 1
            && after.replies == before.replies + [if !fits && w.ow.Fail? then None
                                                  else if w.kind.IncrBy? then Some(now) else Some(was)]
            && (!fits && w.ow.Fail? ==> now == was)
  {
    hide Run, Needed, Command, Grown, Signed, Unsigned, Residue, Saturated, InRange, AfterStore;
    OneOp(s, Write(w));
    OneCommandOrTwo(s, a, [Write(w)]);
    var before := Command(s, a);
    OneOp(before.text, Write(w));
    var room := Grown(before.text, Needed([Write(w)]));
    GrownReads(before.text, Needed([Write(w)]), w.offset, w.bits);
    assert Field(room, w) == Field(before.text, w) by { SameReads(room, before.text, w); }
    if Stored(w, Field(room, w)).Some? {
      StoredFits(w, Field(room, w));
      StoreThenRead(room, w, Stored(w, Field(room, w)).value);
    }
  }

  lemma SameReads(s: seq<Byte>, t: seq<Byte>, w: WriteOp)
    requires ValidOp(w) && Unsigned(s, w.offset, w.bits) == Unsigned(t, w.offset, w.bits)
    ensures Field(s, w) == Field(t, w)
  {
  }
}
