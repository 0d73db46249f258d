/**
 The background rewrite of the append only file, as a transition system over the server,
 the rewriting child and the three pipes between them. Commands run, bytes move through
 the pipes in pieces of any size, the child asks for the end of the stream, and the switch
 may succeed or fail, in any order. What is proved: the log in use always replays to the
 dataset, and a switch puts exactly the snapshot followed by the bytes fed since the fork
 into place.
 */
module AofRewrite {
  import opened Prelude
  import opened AofLog
  import opened AofServer
  import Loader = AofLoad

  // ----- what a log means

  /** exec runs one command in a database; dump lists commands that rebuild a dataset. */
  datatype Semantics<!D> = Semantics(empty: D, exec: (D, nat, Command) -> D, dump: D -> seq<Command>)

  /** The state of the client that replays a log: the dataset and its selected database. */
  datatype Replayed<D> = Replayed(data: D, db: int)

  predicate IsSelect(argv: Command) {
    |argv| == 2 && argv[0] == SELECT
  }

  function Apply<D>(sem: Semantics<D>, st: Replayed<D>, argv: Command): Replayed<D> {
    if IsSelect(argv) then Replayed(st.data, ParseLong(argv[1]))
    else if st.db < 0 then st
    else Replayed(sem.exec(st.data, st.db, argv), st.db)
  }

  function Replay<D>(sem: Semantics<D>, st: Replayed<D>, cmds: seq<Command>): Replayed<D>
    decreases |cmds|
  {
    if cmds == [] then st else Replay(sem, Apply(sem, st, cmds[0]), cmds[1..])
  }

  lemma {:induction false} ReplayAppend<D>(sem: Semantics<D>, st: Replayed<D>, a: seq<Command>, b: seq<Command>)
    ensures Replay(sem, st, a + b) == Replay(sem, Replay(sem, st, a), b)
    decreases |a|
  {
    if a == [] {
      assert a + b == b;
    } else {
      assert (a + b)[1..] == a[1..] + b;
      ReplayAppend(sem, Apply(sem, st, a[0]), a[1..], b);
    }
  }

  function FromEmpty<D>(sem: Semantics<D>, cmds: seq<Command>): Replayed<D> {
    Replay(sem, Replayed(sem.empty, 0), cmds)
  }

  /** What rewriteAppendOnlyFileRio is for: its output rebuilds the dataset. */
  ghost predicate DumpIsFaithful<D(!new)>(sem: Semantics<D>) {
    forall d :: FromEmpty(sem, sem.dump(d)).data == d
  }

  /** cmds rebuilds data, and leaves the database selected that the server believes selected. */
  ghost predicate Rebuilds<D>(sem: Semantics<D>, cmds: seq<Command>, data: D, selected: Option<nat>) {
    var r := FromEmpty(sem, cmds);
    r.data == data && (selected.Some? ==> r.db == selected.value)
  }

  lemma SelectWorks<D>(sem: Semantics<D>, st: Replayed<D>, db: nat)
    ensures IsSelect(SelectCommand(db)) && Apply(sem, st, SelectCommand(db)) == Replayed(st.data, db)
  {
    ParseLongRoundTrip(db, []);
    assert Digits(db) + [] == Digits(db);
  }

  /** Logging one more command keeps a log faithful, whether or not a SELECT is needed. */
  lemma LoggedRebuilds<D>(sem: Semantics<D>, cmds: seq<Command>, data: D, selected: Option<nat>, db: nat,
                          argv: Command)
    requires Rebuilds(sem, cmds, data, selected) && !IsSelect(argv)
    ensures Rebuilds(sem, cmds + Logged(selected, db, argv), sem.exec(data, db, argv), Some(db))
  {
    hide SelectCommand;
    var st := FromEmpty(sem, cmds);
    ReplayAppend(sem, Replayed(sem.empty, 0), cmds, Logged(selected, db, argv));
    if selected == Some(db) {
      ReplayOne(sem, st, argv);
    } else {
      SelectWorks(sem, st, db);
      assert Logged(selected, db, argv) == [SelectCommand(db)] + [argv];
      ReplayAppend(sem, st, [SelectCommand(db)], [argv]);
      ReplayOne(sem, st, SelectCommand(db));
      ReplayOne(sem, Replayed(st.data, db), argv);
    }
  }

  lemma ReplayOne<D>(sem: Semantics<D>, st: Replayed<D>, argv: Command)
    ensures Replay(sem, st, [argv]) == Apply(sem, st, argv)
  {
    assert [argv][1..] == [];
  }

  // ----- the system

  datatype Phase = Dumping | WaitingAck | Draining | Finished | Failed

  /** The child: dump is what it writes first, diff what it read from the parent so far. */
  datatype Child = Child(phase: Phase, dump: seq<Octet>, diff: seq<Octet>)

  /** pipe: the bytes on their way to the child; asked, acked: a '!' on its way up or down. */
  datatype World<D> = World(
    parent: Parent,
    data: D,
    child: Child,
    pipe: seq<Octet>,
    asked: bool,
    acked: bool)

  datatype Step =
    | Run(db: nat, argv: Command)
    | Flush(n: nat)
    | Fork
    | Send(n: nat)
    | Receive(n: nat)
    | AskStop
    | Stop(ackOk: bool)
    | GetAck
    | Finish
    | Fail
    | Done(writesOk: bool)
    | TurnOff(n: nat)
    | TurnOn(otherChild: bool)
    | TurnOnFails

  /** The temporary file a finished child leaves. */
  function TemporaryFile(child: Child): seq<Octet> {
    child.dump + child.diff
  }

  ghost predicate Enabled<D>(w: World<D>, step: Step) {
    match step
    case Run(db, argv) => db < 0x8000_0000 && ValidCommand(argv) && !IsSelect(argv)
    case Flush(n) => n <= |w.parent.buf|
    case Fork => !w.parent.rewriting
    case Send(n) => w.parent.rewriting && n <= |w.parent.pending| && (w.parent.stopSending ==> n == 0)
    case Receive(n) => w.parent.rewriting && (w.child.phase.Dumping? || w.child.phase.Draining?) && n <= |w.pipe|
    case AskStop => w.parent.rewriting && w.child.phase.Dumping?
    case Stop(_) => w.parent.rewriting && w.asked
    case GetAck => w.parent.rewriting && w.child.phase.WaitingAck? && w.acked
    case Finish => w.parent.rewriting && w.child.phase.Draining? && w.pipe == []
    case Fail => w.parent.rewriting && !w.child.phase.Finished?
    case Done(_) => w.parent.rewriting && (w.child.phase.Finished? || w.child.phase.Failed?)
    case TurnOff(n) => !w.parent.state.Off? && n <= |w.parent.buf|
    case TurnOn(otherChild) => w.parent.state.Off? && !(otherChild && w.parent.rewriting)
    case TurnOnFails => w.parent.state.Off?
  }

  /** The switch happens exactly when the child succeeded and every call of the parent did. */
  predicate Switches<D>(w: World<D>, step: Step) {
    step.Done? && step.writesOk && w.child.phase.Finished?
  }

  function FreshChild<D>(sem: Semantics<D>, data: D): Child {
    Child(Dumping, EncodeLog(sem.dump(data)), [])
  }

  ghost function Next<D>(sem: Semantics<D>, w: World<D>, step: Step): World<D>
    requires Enabled(w, step)
  {
    var p := w.parent;
    match step
    case Run(db, argv) =>
      w.(data := sem.exec(w.data, db, argv), parent := if p.state.Off? then p else Feed(p, db, argv))
    case Flush(n) => w.(parent := p.(file := p.file + p.buf[..n], buf := p.buf[n..]))
    case Fork => w.(parent := Forked(p), child := FreshChild(sem, w.data), pipe := [], asked := false, acked := false)
    case Send(n) => w.(parent := p.(pending := p.pending[n..]), pipe := w.pipe + p.pending[..n])
    case Receive(n) => w.(child := w.child.(diff := w.child.diff + w.pipe[..n]), pipe := w.pipe[n..])
    case AskStop => w.(child := w.child.(phase := WaitingAck), asked := true)
    case Stop(ackOk) => w.(parent := p.(stopSending := true), asked := false, acked := ackOk)
    case GetAck => w.(child := w.child.(phase := Draining), acked := false)
    case Finish => w.(child := w.child.(phase := Finished))
    case Fail => w.(child := w.child.(phase := Failed))
    case Done(_) => w.(parent := RewriteDone(p, Switches(w, step), TemporaryFile(w.child)))
    case TurnOff(n) => w.(parent := Stopped(p).(file := p.file + p.buf[..n]))
    case TurnOn(otherChild) =>
      if otherChild then w.(parent := Started(p, true))
      else w.(parent := Started(p, false), child := FreshChild(sem, w.data), pipe := [], asked := false,
              acked := false)
    case TurnOnFails => w.(parent := Killed(p))
  }

  /** log: the commands of the log in use; base: those of the snapshot; fed: those since the fork. */
  datatype History = History(log: seq<Command>, base: seq<Command>, fed: seq<Command>)

  function Record<D>(sem: Semantics<D>, w: World<D>, step: Step, h: History): History {
    match step
    case Run(db, argv) =>
      if w.parent.state.Off? then h
      else
        var more := Logged(w.parent.selectedDb, db, argv);
        h.(log := h.log + more, fed := h.fed + more)
    case Fork => h.(base := sem.dump(w.data), fed := [])
    case TurnOn(false) => h.(base := sem.dump(w.data), fed := [])
    case Done(_) => if Switches(w, step) then h.(log := h.base + h.fed) else h
    case _ => h
  }

  // ----- the invariant

  /** The log in use, in the file and in the buffer, rebuilds the dataset. */
  ghost predicate LogInUse<D>(sem: Semantics<D>, w: World<D>, h: History) {
    && w.parent.file + w.parent.buf == EncodeLog(h.log)
    && Rebuilds(sem, h.log, w.data, w.parent.selectedDb)
  }

  /** Every byte fed since the fork is with the child, in the pipe or still in the buffer, in order. */
  ghost predicate NothingLost<D>(w: World<D>, h: History) {
    && w.child.dump == EncodeLog(h.base)
    && w.child.diff + w.pipe + w.parent.pending == EncodeLog(h.fed)
  }

  ghost predicate NewLogGrows<D>(sem: Semantics<D>, w: World<D>, h: History) {
    && Rebuilds(sem, h.base + h.fed, w.data, w.parent.selectedDb)
    && (h.fed == [] <==> w.parent.selectedDb == None)
    && (h.fed != [] ==> IsSelect(h.fed[0]))
  }

  ghost predicate Handshake<D>(w: World<D>) {
    && (w.acked || w.child.phase.Draining? || w.child.phase.Finished? ==> w.parent.stopSending)
    && (w.child.phase.Finished? ==> w.pipe == [])
    && (w.parent.stopSending || w.asked ==> !w.child.phase.Dumping?)
  }

  ghost predicate Inv<D>(sem: Semantics<D>, w: World<D>, h: History) {
    && (w.parent.state.On? ==> LogInUse(sem, w, h))
    && (w.parent.rewriting ==> NothingLost(w, h) && Handshake(w))
    && (w.parent.rewriting && !w.parent.state.Off? ==> NewLogGrows(sem, w, h))
    && (w.parent.rewriting && w.parent.state.Off? ==> w.parent.pending == [])
    && (!w.parent.state.On? ==> w.parent.buf == [])
    && (w.parent.state.Off? ==> w.parent.selectedDb == None)
    && (!w.parent.rewriting ==> w.parent.pending == [])
  }

  /** What a command adds to the log in use. */
  lemma RunKeepsLog<D>(sem: Semantics<D>, w: World<D>, db: nat, argv: Command, h: History)
    requires Enabled(w, Run(db, argv)) && w.parent.state.On? && LogInUse(sem, w, h)
    ensures LogInUse(sem, Next(sem, w, Run(db, argv)), Record(sem, w, Run(db, argv), h))
  {
    hide Rebuilds, EncodeLog, IsSelect, Logged;
    var p, w1 := w.parent, Next(sem, w, Run(db, argv));
    var more := Logged(p.selectedDb, db, argv);
    EncodeLogAppend(h.log, more);
    LoggedRebuilds(sem, h.log, w.data, p.selectedDb, db, argv);
    assert w1.parent.file + w1.parent.buf == (p.file + p.buf) + EncodeLog(more);
  }

  /** What a command adds to the log under construction. */
  lemma RunKeepsNewLog<D>(sem: Semantics<D>, w: World<D>, db: nat, argv: Command, h: History)
    requires Enabled(w, Run(db, argv)) && !w.parent.state.Off? && w.parent.rewriting
    requires NothingLost(w, h) && NewLogGrows(sem, w, h)
    ensures var w1, h1 := Next(sem, w, Run(db, argv)), Record(sem, w, Run(db, argv), h);
            NothingLost(w1, h1) && NewLogGrows(sem, w1, h1)
  {
    hide Rebuilds, EncodeLog, IsSelect, Logged;
    var p, w1, h1 := w.parent, Next(sem, w, Run(db, argv)), Record(sem, w, Run(db, argv), h);
    var more := Logged(p.selectedDb, db, argv);
    EncodeLogAppend(h.fed, more);
    LoggedRebuilds(sem, h.base + h.fed, w.data, p.selectedDb, db, argv);
    assert h1.base + h1.fed == (h.base + h.fed) + more;
    assert w1.child.diff + w1.pipe + w1.parent.pending == (w.child.diff + w.pipe + p.pending) + EncodeLog(more);
    LoggedStarts(p.selectedDb, db, argv);
    assert h1.fed != [] && h1.fed[0] == if h.fed == [] then more[0] else h.fed[0];
  }

  lemma RunKeepsInv<D>(sem: Semantics<D>, w: World<D>, db: nat, argv: Command, h: History)
    requires Inv(sem, w, h) && Enabled(w, Run(db, argv))
    ensures Inv(sem, Next(sem, w, Run(db, argv)), Record(sem, w, Run(db, argv), h))
  {
    hide EncodeLog, IsSelect, Logged, Rebuilds;
    if w.parent.state.On? {
      RunKeepsLog(sem, w, db, argv, h);
    }
    if !w.parent.state.Off? && w.parent.rewriting {
      RunKeepsNewLog(sem, w, db, argv, h);
    }
  }

  lemma LoggedStarts(selected: Option<nat>, db: nat, argv: Command)
    ensures Logged(selected, db, argv) != []
    ensures selected == None ==> IsSelect(Logged(selected, db, argv)[0])
  {
  }

  /** A fork starts a new log that is a faithful image of the dataset of that moment. */
  lemma ForkKeepsInv<D(!new)>(sem: Semantics<D>, w: World<D>, step: Step, h: History)
    requires Inv(sem, w, h) && Enabled(w, step) && DumpIsFaithful(sem)
    requires step.Fork? || step.TurnOn?
    ensures Inv(sem, Next(sem, w, step), Record(sem, w, step, h))
  {
    hide FromEmpty, EncodeLog;
    var w1, h1 := Next(sem, w, step), Record(sem, w, step, h);
    if step.Fork? || !step.otherChild {
      NoBytes();
      assert h1.base + h1.fed == sem.dump(w.data);
      assert w1.child.diff + w1.pipe + w1.parent.pending == [];
    }
  }

  lemma NoBytes()
    ensures EncodeLog([]) == []
  {
  }

  /** Moving bytes between the buffers and the pipes loses none and reorders none. */
  lemma TransferKeepsInv<D>(sem: Semantics<D>, w: World<D>, step: Step, h: History)
    requires Inv(sem, w, h) && Enabled(w, step)
    requires step.Flush? || step.Send? || step.Receive?
    ensures Inv(sem, Next(sem, w, step), Record(sem, w, step, h))
  {
    hide Rebuilds, EncodeLog, IsSelect;
    var p, w1 := w.parent, Next(sem, w, step);
    match step
    case Flush(n) => Moved([], p.file, p.buf, n);
    case Send(n) => Moved(w.child.diff, w.pipe, p.pending, n);
    case Receive(n) =>
      Moved([], w.child.diff, w.pipe, n);
      assert w1.child.diff + w1.pipe == w.child.diff + w.pipe;
  }

  lemma Moved(a: seq<Octet>, b: seq<Octet>, c: seq<Octet>, n: nat)
    requires n <= |c|
    ensures a + (b + c[..n]) + c[n..] == a + b + c
    ensures (b + c[..n]) + c[n..] == b + c
  {
  }

  /** What a switch puts into place. */
  lemma SwitchIsExact<D>(sem: Semantics<D>, w: World<D>, step: Step, h: History)
    requires Inv(sem, w, h) && Enabled(w, step) && Switches(w, step) && !w.parent.state.Off?
    ensures var p1 := Next(sem, w, step).parent;
            && p1.file == EncodeLog(h.base) + EncodeLog(h.fed) && p1.buf == [] && p1.state.On? && p1.selectedDb == None
            && FromEmpty(sem, h.base + h.fed).data == w.data
    ensures h.fed != [] ==> IsSelect(h.fed[0])
  {
    hide FromEmpty, EncodeLog, IsSelect;
    var p1 := Next(sem, w, step).parent;
    assert w.child.diff + w.pipe + w.parent.pending == w.child.diff + w.parent.pending;
    assert p1.file == w.child.dump + (w.child.diff + w.parent.pending);
  }

  lemma DoneKeepsInv<D>(sem: Semantics<D>, w: World<D>, step: Step, h: History)
    requires Inv(sem, w, h) && Enabled(w, step) && step.Done?
    ensures Inv(sem, Next(sem, w, step), Record(sem, w, step, h))
  {
    hide FromEmpty, EncodeLog, IsSelect;
    var w1, h1 := Next(sem, w, step), Record(sem, w, step, h);
    if Switches(w, step) {
      if !w.parent.state.Off? {
        SwitchIsExact(sem, w, step, h);
        EncodeLogAppend(h.base, h.fed);
        assert w1.parent.file + w1.parent.buf == w1.parent.file;
      }
    }
  }

  lemma StepKeepsInv<D(!new)>(sem: Semantics<D>, w: World<D>, step: Step, h: History)
    requires Inv(sem, w, h) && Enabled(w, step) && DumpIsFaithful(sem)
    ensures Inv(sem, Next(sem, w, step), Record(sem, w, step, h))
  {
    hide Rebuilds, EncodeLog, IsSelect;
    match step {
      case Run(db, argv) => RunKeepsInv(sem, w, db, argv, h);
      case Fork => ForkKeepsInv(sem, w, step, h);
      case TurnOn(_) => ForkKeepsInv(sem, w, step, h);
      case Flush(_) => TransferKeepsInv(sem, w, step, h);
      case Send(_) => TransferKeepsInv(sem, w, step, h);
      case Receive(_) => TransferKeepsInv(sem, w, step, h);
      case Done(_) => DoneKeepsInv(sem, w, step, h);
      case _ =>
    }
  }

  // ----- whole runs

  /** A server that just started with the log switched off, whatever dataset it loaded. */
  predicate Initial<D>(w: World<D>) {
    && w.parent.state.Off? && !w.parent.rewriting && w.parent.buf == [] && w.parent.pending == []
    && w.parent.selectedDb == None
  }

  ghost predicate IsRun<D>(sem: Semantics<D>, w: World<D>, steps: seq<Step>)
    decreases |steps|
  {
    steps != [] ==> Enabled(w, steps[0]) && IsRun(sem, Next(sem, w, steps[0]), steps[1..])
  }

  ghost function After<D>(sem: Semantics<D>, w: World<D>, steps: seq<Step>): World<D>
    requires IsRun(sem, w, steps)
    decreases |steps|
  {
    if steps == [] then w else After(sem, Next(sem, w, steps[0]), steps[1..])
  }

  ghost function HistoryAfter<D>(sem: Semantics<D>, w: World<D>, steps: seq<Step>, h: History): History
    requires IsRun(sem, w, steps)
    decreases |steps|
  {
    if steps == [] then h
    else HistoryAfter(sem, Next(sem, w, steps[0]), steps[1..], Record(sem, w, steps[0], h))
  }

  lemma {:induction false} InvInEveryRun<D(!new)>(sem: Semantics<D>, w: World<D>, steps: seq<Step>, h: History)
    requires Inv(sem, w, h) && IsRun(sem, w, steps) && DumpIsFaithful(sem)
    ensures Inv(sem, After(sem, w, steps), HistoryAfter(sem, w, steps, h))
    decreases |steps|
  {
    hide Inv, Next, Record, Enabled;
    if steps != [] {
      StepKeepsInv(sem, w, steps[0], h);
      InvInEveryRun(sem, Next(sem, w, steps[0]), steps[1..], Record(sem, w, steps[0], h));
    }
  }

  /**
   In every run, whenever the log is on, the file followed by the buffer is a log that
   replays to the dataset; so a switch that discards the buffer discards nothing the new
   file does not hold.
   */
  lemma LogAlwaysRebuilds<D(!new)>(sem: Semantics<D>, w: World<D>, steps: seq<Step>)
    requires Initial(w) && IsRun(sem, w, steps) && DumpIsFaithful(sem)
    ensures var w1 := After(sem, w, steps);
            w1.parent.state.On? ==>
              exists cmds ::
                w1.parent.file + w1.parent.buf == EncodeLog(cmds) && FromEmpty(sem, cmds).data == w1.data
  {
    hide FromEmpty, EncodeLog, After, IsRun, HistoryAfter;
    var h := History([], [], []);
    InvInEveryRun(sem, w, steps, h);
    var h1 := HistoryAfter(sem, w, steps, h);
    assert After(sem, w, steps).parent.state.On? ==> LogInUse(sem, After(sem, w, steps), h1);
  }

  /**
   Loading the log of a flushed server gives back the dataset. Stated for commands the
   loader knows, outside MULTI.
   */
  lemma RestartRebuilds<D(!new)>(sem: Semantics<D>, w: World<D>, steps: seq<Step>, env: Loader.Env)
    requires Initial(w) && IsRun(sem, w, steps) && DumpIsFaithful(sem) && PlainSteps(sem, steps, env)
    requires After(sem, w, steps).parent.state.On? && After(sem, w, steps).parent.buf == []
    requires After(sem, w, steps).parent.file != []
    ensures var w1 := After(sem, w, steps);
            var r := Loader.Load(w1.parent.file, env);
            r.Loaded? && r.size == |w1.parent.file| && FromEmpty(sem, r.ran).data == w1.data
  {
    hide FromEmpty, EncodeLog, After, IsRun, HistoryAfter, PlainSteps, Loader.Load, Loader.AllPlain;
    var h := History([], [], []);
    var w1, h1 := After(sem, w, steps), HistoryAfter(sem, w, steps, h);
    InvInEveryRun(sem, w, steps, h);
    assert LogInUse(sem, w1, h1);
    assert w1.parent.file + [] == w1.parent.file;
    NoBytes();
    NothingIsPlain(env);
    PlainInEveryRun(sem, w, steps, h, env);
    Loader.LoadRoundTrip(h1.log, env);
  }

  /** The loader knows every command a run logs, and none is MULTI or EXEC. */
  ghost predicate PlainSteps<D(!new)>(sem: Semantics<D>, steps: seq<Step>, env: Loader.Env) {
    && env.known(SELECT) && !env.isMulti(SELECT) && !env.isExec(SELECT)
    && (forall d :: Loader.AllPlain(sem.dump(d), env))
    && (forall step :: step in steps && step.Run? ==> Loader.Plain(step.argv, env))
  }

  ghost predicate PlainHistory(h: History, env: Loader.Env) {
    Loader.AllPlain(h.log, env) && Loader.AllPlain(h.base, env) && Loader.AllPlain(h.fed, env)
  }

  lemma NothingIsPlain(env: Loader.Env)
    ensures Loader.AllPlain([], env)
  {
  }

  lemma SelectIsPlain(db: nat, env: Loader.Env)
    requires db < 0x8000_0000 && env.known(SELECT) && !env.isMulti(SELECT) && !env.isExec(SELECT)
    ensures Loader.Plain(SelectCommand(db), env)
  {
    Pow10Of19();
    DigitsLength(db, 19);
  }

  lemma PlainStep<D(!new)>(sem: Semantics<D>, w: World<D>, steps: seq<Step>, h: History, env: Loader.Env)
    requires steps != [] && Enabled(w, steps[0]) && PlainSteps(sem, steps, env) && PlainHistory(h, env)
    ensures PlainHistory(Record(sem, w, steps[0], h), env) && PlainSteps(sem, steps[1..], env)
  {
    hide SelectCommand, Loader.Plain;
    assert steps[0] in steps;
    if steps[0].Run? {
      SelectIsPlain(steps[0].db, env);
    }
  }

  lemma {:induction false} PlainInEveryRun<D(!new)>(sem: Semantics<D>, w: World<D>, steps: seq<Step>, h: History,
                                                    env: Loader.Env)
    requires IsRun(sem, w, steps) && PlainSteps(sem, steps, env) && PlainHistory(h, env)
    ensures PlainHistory(HistoryAfter(sem, w, steps, h), env)
    decreases |steps|
  {
    hide Next, Record, Enabled, PlainSteps, PlainHistory;
    if steps != [] {
      PlainStep(sem, w, steps, h, env);
      PlainInEveryRun(sem, Next(sem, w, steps[0]), steps[1..], Record(sem, w, steps[0], h), env);
    }
  }

  /**
   After every run, a switch leaves a file made of the dump of some moment followed by
   exactly the commands logged since, beginning with a SELECT.
   */
  lemma EverySwitchIsExact<D(!new)>(sem: Semantics<D>, w: World<D>, steps: seq<Step>, ok: Step)
    requires Initial(w) && IsRun(sem, w, steps) && DumpIsFaithful(sem)
    requires var w1 := After(sem, w, steps); Enabled(w1, ok) && Switches(w1, ok) && !w1.parent.state.Off?
    ensures var w1, h1 := After(sem, w, steps), HistoryAfter(sem, w, steps, History([], [], []));
            var p := Next(sem, w1, ok).parent;
            && p.state.On? && p.buf == [] && p.file == EncodeLog(h1.base) + EncodeLog(h1.fed) && p.selectedDb == None
            && FromEmpty(sem, h1.base + h1.fed).data == w1.data
            && (h1.fed != [] ==> IsSelect(h1.fed[0]))
  {
    hide FromEmpty, EncodeLog, After, IsRun, HistoryAfter, Next, IsSelect, Switches;
    var h := History([], [], []);
    InvInEveryRun(sem, w, steps, h);
    SwitchIsExact(sem, After(sem, w, steps), ok, HistoryAfter(sem, w, steps, h));
  }

  // ----- a rewrite can always be brought to its end

  /** The child reads what is in the pipe, and the handshake is carried through. */
  function ToTheEnd<D>(w: World<D>): seq<Step> {
    [Receive(|w.pipe|), AskStop, Stop(true), GetAck, Finish, Done(true)]
  }

  lemma {:induction false} RunAppend<D>(sem: Semantics<D>, w: World<D>, a: seq<Step>, b: seq<Step>)
    requires IsRun(sem, w, a) && IsRun(sem, After(sem, w, a), b)
    ensures IsRun(sem, w, a + b) && After(sem, w, a + b) == After(sem, After(sem, w, a), b)
    decreases |a|
  {
    hide Enabled, Next;
    if a == [] {
      assert a + b == b;
    } else {
      assert (a + b)[1..] == a[1..] + b;
      RunAppend(sem, Next(sem, w, a[0]), a[1..], b);
    }
  }

  lemma RunOne<D>(sem: Semantics<D>, w: World<D>, step: Step)
    requires Enabled(w, step)
    ensures IsRun(sem, w, [step]) && After(sem, w, [step]) == Next(sem, w, step)
  {
    hide Enabled, Next;
    assert [step][1..] == [];
  }

  /** The first half: the parent stops sending, and the child knows. */
  lemma HandshakeRun<D>(sem: Semantics<D>, w: World<D>, steps: seq<Step>)
    requires w.parent.rewriting && w.child.phase.Dumping?
    requires steps == [Receive(|w.pipe|), AskStop] + [Stop(true), GetAck]
    ensures IsRun(sem, w, steps)
    ensures After(sem, w, steps) ==
              w.(child := w.child.(diff := w.child.diff + w.pipe, phase := Draining), pipe := [],
                 parent := w.parent.(stopSending := true), asked := false, acked := false)
  {
    hide IsRun, After;
    var w1 := Next(sem, w, Receive(|w.pipe|));
    var w2 := Next(sem, w1, AskStop);
    var w3 := Next(sem, w2, Stop(true));
    RunOne(sem, w, Receive(|w.pipe|));
    RunOne(sem, w1, AskStop);
    RunAppend(sem, w, [Receive(|w.pipe|)], [AskStop]);
    assert [Receive(|w.pipe|)] + [AskStop] == [Receive(|w.pipe|), AskStop];
    RunOne(sem, w2, Stop(true));
    RunOne(sem, w3, GetAck);
    RunAppend(sem, w2, [Stop(true)], [GetAck]);
    assert [Stop(true)] + [GetAck] == [Stop(true), GetAck];
    RunAppend(sem, w, [Receive(|w.pipe|), AskStop], [Stop(true), GetAck]);
    assert w.pipe[..|w.pipe|] == w.pipe && w.pipe[|w.pipe|..] == [];
  }

  /**
   Nothing a run does while the child dumps blocks the rewrite: as long as the calls of the
   system succeed, a few steps put the new log into place, made of the dump and of all that
   was fed since.
   */
  lemma RewriteCanFinish<D(!new)>(sem: Semantics<D>, w: World<D>, steps: seq<Step>)
    requires Initial(w) && IsRun(sem, w, steps) && DumpIsFaithful(sem)
    requires var w1 := After(sem, w, steps);
             w1.parent.rewriting && w1.child.phase.Dumping? && !w1.parent.state.Off?
    ensures var w1 := After(sem, w, steps);
            var h1 := HistoryAfter(sem, w, steps, History([], [], []));
            && IsRun(sem, w1, ToTheEnd(w1))
            && var p := After(sem, w1, ToTheEnd(w1)).parent;
               && p.state.On? && !p.rewriting && p.buf == [] && p.file == EncodeLog(h1.base) + EncodeLog(h1.fed)
               && FromEmpty(sem, h1.base + h1.fed).data == w1.data
  {
    hide FromEmpty, EncodeLog, After, IsRun, HistoryAfter, IsSelect;
    var h := History([], [], []);
    InvInEveryRun(sem, w, steps, h);
    var w1, h1 := After(sem, w, steps), HistoryAfter(sem, w, steps, h);
    var first := [Receive(|w1.pipe|), AskStop] + [Stop(true), GetAck];
    HandshakeRun(sem, w1, first);
    var w2 := After(sem, w1, first);
    var w3 := Next(sem, w2, Finish);
    RunOne(sem, w2, Finish);
    RunOne(sem, w3, Done(true));
    RunAppend(sem, w2, [Finish], [Done(true)]);
    RunAppend(sem, w1, first, [Finish] + [Done(true)]);
    assert ToTheEnd(w1) == first + ([Finish] + [Done(true)]);
    FedAtTheEnd(sem, w1, h1);
  }

  lemma FedAtTheEnd<D>(sem: Semantics<D>, w: World<D>, h: History)
    requires Inv(sem, w, h) && w.parent.rewriting && !w.parent.state.Off?
    ensures w.child.dump + (w.child.diff + w.pipe) + w.parent.pending == EncodeLog(h.base) + EncodeLog(h.fed)
    ensures FromEmpty(sem, h.base + h.fed).data == w.data
  {
    hide FromEmpty, EncodeLog, IsSelect;
    assert w.child.dump + (w.child.diff + w.pipe) + w.parent.pending
        == w.child.dump + (w.child.diff + w.pipe + w.parent.pending);
  }

  // ----- until a switch

  /** No step of the run puts a new log into place or turns logging off. */
  ghost predicate NoSwitch<D>(sem: Semantics<D>, w: World<D>, steps: seq<Step>)
    requires IsRun(sem, w, steps)
    decreases |steps|
  {
    steps != [] ==>
      !Switches(w, steps[0]) && !steps[0].TurnOff? && NoSwitch(sem, Next(sem, w, steps[0]), steps[1..])
  }

  lemma OneStepGrows<D>(sem: Semantics<D>, w: World<D>, step: Step, h: History)
    requires Enabled(w, step) && w.parent.state.On? && !Switches(w, step) && !step.TurnOff?
    ensures var w1 := Next(sem, w, step);
            w1.parent.state.On? && w.parent.file <= w1.parent.file && h.log <= Record(sem, w, step, h).log
  {
    hide EncodeLog, IsSelect, Logged;
  }

  lemma {:induction false} LogOnlyGrows<D>(sem: Semantics<D>, w: World<D>, steps: seq<Step>, h: History)
    requires IsRun(sem, w, steps) && NoSwitch(sem, w, steps) && w.parent.state.On?
    ensures var w1 := After(sem, w, steps);
            && w1.parent.state.On? && w.parent.file <= w1.parent.file
            && h.log <= HistoryAfter(sem, w, steps, h).log
    decreases |steps|
  {
    hide Next, Record, Enabled, Switches;
    if steps != [] {
      OneStepGrows(sem, w, steps[0], h);
      LogOnlyGrows(sem, Next(sem, w, steps[0]), steps[1..], Record(sem, w, steps[0], h));
    }
  }

  /**
   A rewrite that fails, whenever and however it does, costs nothing: up to the next switch
   the file on disk is only appended to, and the log in use is the old one followed by what
   was run since, which replays to the dataset.
   */
  lemma EveryFailureKeepsLog<D(!new)>(sem: Semantics<D>, w: World<D>, before: seq<Step>, rewrite: seq<Step>)
    requires Initial(w) && IsRun(sem, w, before) && DumpIsFaithful(sem)
    requires var w1 := After(sem, w, before);
             w1.parent.state.On? && IsRun(sem, w1, rewrite) && NoSwitch(sem, w1, rewrite)
    ensures var w1 := After(sem, w, before);
            var w2 := After(sem, w1, rewrite);
            && w2.parent.state.On? && w1.parent.file <= w2.parent.file
            && exists cmds, more ::
                 && w1.parent.file + w1.parent.buf == EncodeLog(cmds)
                 && w2.parent.file + w2.parent.buf == EncodeLog(cmds + more)
                 && FromEmpty(sem, cmds + more).data == w2.data
  {
    hide FromEmpty, EncodeLog, After, IsRun, HistoryAfter, NoSwitch;
    var h := History([], [], []);
    InvInEveryRun(sem, w, before, h);
    var w1, h1 := After(sem, w, before), HistoryAfter(sem, w, before, h);
    InvInEveryRun(sem, w1, rewrite, h1);
    LogOnlyGrows(sem, w1, rewrite, h1);
    var w2, h2 := After(sem, w1, rewrite), HistoryAfter(sem, w1, rewrite, h1);
    assert LogInUse(sem, w1, h1) && LogInUse(sem, w2, h2);
    assert h2.log == h1.log + h2.log[|h1.log|..];
  }
}
