/** CS# in every reachable state of every compiled program. */
module CsSafety {
  import opened Prelude
  import opened Isa
  import opened Machine
  import opened Asm
  import opened Encoder
  import opened Simulation
  import opened Ast
  import opened ConstEval
  import opened Registers
  import opened EmittedLines
  import opened Emit
  import opened Interp
  import opened Correct
  import opened Driver
  import opened Program
  import Lexer
  import P = Printer
  import C = Crc8

  /** Whether CS# is low after the events of `log`. */
  predicate Low(log: seq<Event>) {
    if log == [] then false else
    var last := log[|log| - 1];
    if last.CsLow? then true else if last.CsHigh? then false else Low(log[..|log| - 1])
  }

  /** CS# falls only when high and rises only when low. */
  predicate Alternates(log: seq<Event>) {
    log == [] ||
    (var front, last := log[..|log| - 1], log[|log| - 1];
     Alternates(front) && (last.CsLow? ==> !Low(front)) && (last.CsHigh? ==> Low(front)))
  }

  // ----- the instruction side -----

  /** The device records its CS# pin faithfully. */
  predicate Tracks(dev: Device) { dev.csLow == Low(dev.log) }

  lemma LogEvent(dev: Device, e: Event)
    ensures Low(Logged(dev, e).log) == if e.CsLow? then true else if e.CsHigh? then false else Low(dev.log)
    ensures Alternates(Logged(dev, e).log)
        <==> Alternates(dev.log) && (e.CsLow? ==> !Low(dev.log)) && (e.CsHigh? ==> Low(dev.log))
    ensures Prefix(dev.log, Logged(dev, e).log)
  {
    var log := Logged(dev, e).log;
    assert log[..|log| - 1] == dev.log;
  }

  lemma TrapTracks(dev: Device)
    requires Tracks(dev)
    ensures var d := PinsSafe(dev); Tracks(d) && !d.csLow && Prefix(dev.log, d.log)
  {
    hide Low, Alternates;
    LogEvent(dev.(csLow := false), CsHigh);
    var d := if dev.csLow then Logged(dev.(csLow := false), CsHigh) else dev;
    LogEvent(d.(rstLow := false), RstHigh);
    PrefixTrans(dev.log, d.log, PinsSafe(dev).log);
  }

  /** An instruction that does not trap adds at most one event, and the pin follows it. */
  lemma OneEvent(i: Straight, regs: Regs, dev: Device)
    ensures var f := Exec(i, regs, dev);
            if f.status.Trapped? then f.dev == PinsSafe(dev)
            else if |f.dev.log| == |dev.log| then f.dev.log == dev.log && f.dev.csLow == dev.csLow
            else
              && |f.dev.log| == |dev.log| + 1
              && (var e := f.dev.log[|dev.log|];
                  && f.dev.log == dev.log + [e]
                  && (e.CsLow? ==> i.CsAssert?) && (e.CsHigh? ==> i.CsDeassert?)
                  && f.dev.csLow == (if e.CsLow? then true else if e.CsHigh? then false else dev.csLow))
    ensures Exec(i, regs, dev).status.Halted? ==> i.Halt?
  {
    hide DataValue, C.Update, Pow2, PinsSafe;
  }

  lemma ExecTracks(i: Straight, regs: Regs, dev: Device)
    requires Tracks(dev)
    ensures var d := Exec(i, regs, dev).dev; Tracks(d) && Prefix(dev.log, d.log)
  {
    hide Exec, Low, PinsSafe;
    OneEvent(i, regs, dev);
    TrapTracks(dev);
    var d := Exec(i, regs, dev).dev;
    if |d.log| == |dev.log| + 1 {
      LogEvent(dev, d.log[|dev.log|]);
    }
  }

  lemma StepTracks(words: seq<u32>, s: State)
    requires Tracks(s.dev)
    ensures var d := StepWord(words, s).dev; Tracks(d) && Prefix(s.dev.log, d.log)
  {
    hide Low, Exec, Decode, PinsSafe;
    if s.status == Running && 0 <= s.pc < |words| {
      match Decode(words[s.pc])
      case Ok(i) =>
        if !IsBranch(i) {
          ExecTracks(i, s.regs, s.dev);
        }
      case Err(_) => TrapTracks(s.dev);
    }
  }

  lemma {:induction false} RunTracks(words: seq<u32>, n: nat, s: State)
    requires Tracks(s.dev)
    ensures var d := RunWords(words, n, s).dev; Tracks(d) && Prefix(s.dev.log, d.log)
    decreases n
  {
    hide StepWord, Tracks;
    if n > 0 {
      var s' := StepWord(words, s);
      StepTracks(words, s);
      RunTracks(words, n - 1, s');
      var log := RunWords(words, n - 1, s').dev.log;
      assert log[..|s.dev.log|] == log[..|s'.dev.log|][..|s.dev.log|];
    }
  }

  lemma {:induction false} AlternatesPrefix(a: seq<Event>, b: seq<Event>)
    requires Prefix(a, b) && Alternates(b)
    ensures Alternates(a)
    decreases |b|
  {
    if |a| < |b| {
      assert b[..|b| - 1][..|a|] == a;
      AlternatesPrefix(a, b[..|b| - 1]);
    } else {
      assert a == b;
    }
  }

  // ----- the source side -----

  /** Raw statements that leave CS# alone; inside a frame they do not halt either. */
  predicate RawQuiet(mnemonic: string, operands: seq<Operand>, inFrame: bool) {
    match Resolve(mnemonic, operands, map[])
    case Ok(Plain(i)) => !i.CsAssert? && !i.CsDeassert? && !(inFrame && i.Halt?)
    case _ => true
  }

  /** `framed` names the procs that may be called inside a frame. */
  predicate Quiet(s: Stmt, inFrame: bool, framed: set<string>) {
    match s
    case Raw(mnemonic, operands) => RawQuiet(mnemonic, P.ReadAll(operands), inFrame)
    case Frame(body) => forall t :: t in body ==> Quiet(t, true, framed)
    case Repeat(_, body) => forall t :: t in body ==> Quiet(t, inFrame, framed)
    case CallProc(name, _) => inFrame ==> name in framed
    case _ => true
  }

  predicate AllQuiet(body: seq<Stmt>, inFrame: bool, framed: set<string>) {
    forall t :: t in body ==> Quiet(t, inFrame, framed)
  }

  predicate ProcsQuiet(procs: map<string, ProcDef>, framed: set<string>) {
    forall name :: name in procs ==>
      AllQuiet(procs[name].body, false, framed) && (name in framed ==> AllQuiet(procs[name].body, true, framed))
  }

  predicate ModuleQuiet(m: Module, framed: set<string>) {
    ProcsQuiet(ProcTable(m.procs), framed) && forall k :: 0 <= k < |m.tests| ==> AllQuiet(m.tests[k].stmts, false, framed)
  }

  /** CS# is low in a frame and high outside, and has alternated so far. */
  predicate Tidy(inFrame: bool, dev: Device) { dev.csLow == inFrame && Tracks(dev) && Alternates(dev.log) }

  /** Where control goes on, CS# is as it was; a program that halts or traps leaves CS# high. */
  predicate Safe(inFrame: bool, out: Outcome) {
    match out
    case Next(at) => Tidy(inFrame, at.dev)
    case Stop(dev, status) => Tidy(dev.csLow, dev) && (status.Halted? || status.Trapped? ==> !dev.csLow)
    case Fault => true
  }

  lemma LogQuiet(inFrame: bool, dev: Device, e: Event)
    requires Tidy(inFrame, dev) && !e.CsLow? && !e.CsHigh?
    ensures Tidy(inFrame, Logged(dev, e))
  {
    hide Low, Alternates;
    LogEvent(dev, e);
  }

  lemma {:induction false} PutQuiet(inFrame: bool, dev: Device, bytes: seq<byte>)
    requires Tidy(inFrame, dev)
    ensures Tidy(inFrame, PutAll(dev, bytes))
    decreases |bytes|
  {
    hide Tidy;
    hide PutAll;
    PutFirst(dev, bytes);
    if bytes != [] {
      LogQuiet(inFrame, dev, Put(bytes[0]));
      PutQuiet(inFrame, Logged(dev, Put(bytes[0])), bytes[1..]);
    }
  }

  lemma ReceivedQuiet(inFrame: bool, dev: Device)
    requires Tidy(inFrame, dev) && dev.rx != []
    ensures Tidy(inFrame, Received(dev))
  {
    hide Low, Alternates, C.Update;
    LogQuiet(inFrame, dev.(rx := dev.rx[1..], crc := C.Update(dev.crc, dev.rx[0])), Got(dev.rx[0]));
  }

  lemma ReceiveOneSafe(inFrame: bool, at: Position, name: Option<string>)
    requires Tidy(inFrame, at.dev)
    ensures Safe(inFrame, ReceiveOne(at, name))
  {
    hide Tracks, Alternates, Received, Lend, Free;
    if at.dev.rx != [] {
      ReceivedQuiet(inFrame, at.dev);
    }
  }

  lemma {:induction false} ReceiveSafe(inFrame: bool, at: Position, targets: seq<RecvTarget>)
    requires Tidy(inFrame, at.dev)
    ensures Safe(inFrame, Receive(at, targets))
    decreases |targets|
  {
    hide Tracks, Alternates, ReceiveOne;
    if targets != [] {
      ReceiveOneSafe(inFrame, at, NameOf(targets[0]));
      match ReceiveOne(at, NameOf(targets[0]))
      case Next(at1) => ReceiveSafe(inFrame, at1, targets[1..]);
      case _ =>
    }
  }

  lemma {:induction false} PollIntoSafe(inFrame: bool, at: Position, resp: Leased, k: Leased)
    requires Tidy(inFrame, at.dev)
    ensures Safe(inFrame, PollInto(at, resp, k))
    decreases |at.dev.rx|
  {
    hide Low, Alternates, C.Update;
    var dev := at.dev.(crc := 0);
    if dev.rx != [] {
      ReceivedQuiet(inFrame, dev);
      var regs := Write(Write(at.regs, resp, dev.rx[0]), k, WAIT_STATE_CODE);
      PollIntoSafe(inFrame, at.(dev := Received(dev), regs := regs), resp, k);
    }
  }

  lemma PollSafe(inFrame: bool, at: Position, bind: Option<string>)
    requires Tidy(inFrame, at.dev)
    ensures Safe(inFrame, Poll(at, bind))
  {
    hide Tracks, Alternates, PollInto, Lend, Alloc, Free;
    if Lend(at.pool, bind).Some? && Alloc(Lend(at.pool, bind).value.pool).Some? {
      PollIntoSafe(inFrame, at, Lend(at.pool, bind).value.reg, Alloc(Lend(at.pool, bind).value.pool).value.reg);
    }
  }

  lemma TrapTidy(inFrame: bool, dev: Device)
    requires Tidy(inFrame, dev)
    ensures Tidy(false, PinsSafe(dev))
  {
    hide Low, Alternates;
    LogEvent(dev.(csLow := false), CsHigh);
    var d := if dev.csLow then Logged(dev.(csLow := false), CsHigh) else dev;
    LogEvent(d.(rstLow := false), RstHigh);
  }

  /** A quiet instruction leaves CS# alone, unless it traps. */
  lemma ExecQuiet(inFrame: bool, i: Straight, regs: Regs, dev: Device)
    requires Tidy(inFrame, dev) && !i.CsAssert? && !i.CsDeassert? && !(inFrame && i.Halt?)
    ensures var f := Exec(i, regs, dev);
            if f.status == Running then Tidy(inFrame, f.dev)
            else Tidy(f.dev.csLow, f.dev) && (f.status.Halted? || f.status.Trapped? ==> !f.dev.csLow)
  {
    hide Exec, Low, Alternates, PinsSafe;
    TrapTidy(inFrame, dev);
    OneEvent(i, regs, dev);
    var f := Exec(i, regs, dev);
    if !f.status.Trapped? && |f.dev.log| > |dev.log| {
      LogEvent(dev, f.dev.log[|dev.log|]);
    }
  }

  lemma RawSafe(inFrame: bool, mnemonic: string, operands: seq<Operand>, at: Position)
    requires Tidy(inFrame, at.dev) && RawQuiet(mnemonic, operands, inFrame)
    ensures Safe(inFrame, RawEffect(mnemonic, operands, at))
  {
    hide Resolve, Exec, Tracks, Alternates;
    match Resolve(mnemonic, operands, map[])
    case Ok(Plain(i)) => ExecQuiet(inFrame, i, at.regs, at.dev);
    case _ =>
  }

  lemma ConfigQuiet(operands: seq<Operand>, inFrame: bool)
    ensures RawQuiet(SET_CONFIG, operands, inFrame)
  {
    ConfigName();
    hide MnemonicOf, ResolveConfig;
    ConfigPlain(Args(operands, map[]));
  }

  lemma SimpleSafe(c: Context, s: Stmt, at: Position, framed: set<string>)
    requires !s.Frame? && !s.CallProc? && !s.Repeat? && (c.inFrame ==> InFrame(s))
    requires Tidy(c.inFrame, at.dev) && Quiet(s, c.inFrame, framed)
    ensures Safe(c.inFrame, InterpSimple(c, s, at))
  {
    hide RawEffect, Receive, Poll, EvalBytes, EvalByte, EvalSends, SendRegion, PutAll, C.Crc8, Tracks, Alternates, RawQuiet,
         ReceiveOne, Alloc, P.ReadAll, Lexer.ReadOperand;
    match s
    case Raw(mnemonic, operands) => RawSafe(c.inFrame, mnemonic, P.ReadAll(operands), at);
    case Config(keywords) =>
      ConfigQuiet(P.ReadAll(keywords), c.inFrame);
      RawSafe(c.inFrame, SET_CONFIG, P.ReadAll(keywords), at);
    case Recv(targets) => ReceiveSafe(c.inFrame, at, targets);
    case WaitState(bind) => PollSafe(c.inFrame, at, bind);
    case Send(bytes, appendCrc) =>
      if EvalBytes(bytes, c.env).Ok? {
        var b := EvalBytes(bytes, c.env).value;
        PutQuiet(c.inFrame, at.dev, if appendCrc then b + [C.Crc8(b)] else b);
      }
    case CrcRegion(sends) =>
      RegionIs(sends, c.env, at.dev);
      if EvalSends(sends, c.env).Ok? {
        var b := EvalSends(sends, c.env).value;
        PutQuiet(c.inFrame, at.dev, b + [C.Crc8(b)]);
      }
    case Expect(_) => ReceiveOneSafe(c.inFrame, at, None);
    case _ =>
  }

  lemma OpenTidy(dev: Device)
    requires Tidy(false, dev)
    ensures Tidy(true, OpenBus(dev))
  {
    hide Low, Alternates;
    LogEvent(dev.(csLow := true), CsLow);
  }

  /** CS# rises before any verdict is looked at. */
  lemma CloseTidy(outer: seq<Verdict>, at: Position)
    requires Tidy(true, at.dev)
    ensures Safe(false, EndFrame(outer, at))
  {
    hide Low, Alternates, FirstFailing, Exit;
    LogEvent(at.dev.(csLow := false), CsHigh);
  }

  lemma {:induction false} StmtSafe(c: Context, s: Stmt, at: Position, framed: set<string>)
    requires Tidy(c.inFrame, at.dev) && Quiet(s, c.inFrame, framed) && ProcsQuiet(c.procs, framed)
    ensures Safe(c.inFrame, InterpStmt(c, s, at))
    decreases Interp.Idle(c), s, 0
  {
    hide InterpSimple, InterpBody, InterpRepeat, InterpCall, EvalInt, EndFrame, OpenBus, ProcsQuiet, Tracks,
         Alternates, RawQuiet, P.ReadAll, Enter;
    if !(c.inFrame && !InFrame(s)) {
      match s
      case Frame(body) =>
        assert Interp.Idle(c.(inFrame := true)) == Interp.Idle(c);
        OpenTidy(at.dev);
        BodySafe(c.(inFrame := true), body, BeginFrame(at), framed);
        var out := InterpBody(c.(inFrame := true), body, BeginFrame(at));
        if out.Next? {
          CloseTidy(at.verdicts, out.at);
        }
      case CallProc(name, args) => CallSafe(c, name, args, at, framed);
      case Repeat(count, body) =>
        if EvalInt(count, c.env).Ok? && EvalInt(count, c.env).value >= 0 {
          RepeatSafe(c, EvalInt(count, c.env).value, body, at, framed);
        }
      case _ => SimpleSafe(c, s, at, framed);
    }
  }

  lemma {:induction false} BodySafe(c: Context, body: seq<Stmt>, at: Position, framed: set<string>)
    requires Tidy(c.inFrame, at.dev) && AllQuiet(body, c.inFrame, framed) && ProcsQuiet(c.procs, framed)
    ensures Safe(c.inFrame, InterpBody(c, body, at))
    decreases Interp.Idle(c), body, 0
  {
    hide InterpStmt, ProcsQuiet, Tidy, Quiet;
    if body != [] {
      StmtSafe(c, body[0], at, framed);
      match InterpStmt(c, body[0], at)
      case Next(at1) => BodySafe(c, body[1..], at1, framed);
      case _ =>
    }
  }

  lemma {:induction false} CallSafe(c: Context, name: string, args: seq<Arg>, at: Position, framed: set<string>)
    requires Tidy(c.inFrame, at.dev) && (c.inFrame ==> name in framed) && ProcsQuiet(c.procs, framed)
    ensures Safe(c.inFrame, InterpCall(c, name, args, at))
    decreases Interp.Idle(c), args, 0
  {
    hide InterpBody, BindArgs, Tidy, AllQuiet, Enter, Exit, Retain;
    if name !in c.env.fns && name in c.procs && name !in c.active {
      match BindArgs(name, c.procs[name].params, args, c.env)
      case Err(_) =>
      case Ok(bindings) =>
        var c' := c.(env := ChildValues(c.env, bindings), active := c.active + [name]);
        assert name in Interp.Idle(c) && name !in Interp.Idle(c') && Interp.Idle(c') < Interp.Idle(c);
        BodySafe(c', c.procs[name].body, at.(pool := Enter(at.pool)), framed);
    }
  }

  lemma {:induction false} RepeatSafe(c: Context, n: nat, body: seq<Stmt>, at: Position, framed: set<string>)
    requires Tidy(c.inFrame, at.dev) && AllQuiet(body, c.inFrame, framed) && ProcsQuiet(c.procs, framed)
    ensures Safe(c.inFrame, InterpRepeat(c, n, body, at))
    decreases Interp.Idle(c), body, 1, n
  {
    hide InterpBody, Tidy, AllQuiet, ProcsQuiet, Enter, Exit, Retain;
    if n > 0 {
      var at1 := at.(pool := Enter(at.pool));
      BodySafe(c, body, at1, framed);
      match InterpBody(c, body, at1)
      case Next(end) => RepeatSafe(c, n - 1, body, Leave(end), framed);
      case _ =>
    }
  }

  // ----- every reachable state -----

  lemma SourceSafe(m: Module, framed: set<string>, rx: seq<byte>)
    requires ModuleEnv(m).Ok? && |m.tests| == 1 && ModuleQuiet(m, framed)
    ensures Safe(false, RunSource(m, rx))
  {
    hide InterpBody, ModuleEnv, ProcTable, AllQuiet, ProcsQuiet;
    BodySafe(Context(ProcTable(m.procs), ModuleEnv(m).value, [], false), m.tests[0].stmts,
             Begin(rx), framed);
  }

  /**
   * In every state that a compiled program can reach, on any input, CS# has strictly alternated,
   * and if the program has halted (on a verdict or not) CS# is high.
   */
  lemma CsSafe(m: Module, framed: set<string>, rx: seq<byte>, n: nat)
    requires Lower(m).Ok? && Assembles(Lower(m).value) && RawStraight(m) && ModuleQuiet(m, framed)
    ensures var s := RunWords(EncodeAll(Code(Lower(m).value)), n, Initial(rx));
            && Alternates(s.dev.log) && s.dev.csLow == Low(s.dev.log)
            && (s.status.Halted? || s.status.Trapped? ==> !s.dev.csLow)
  {
    hide Lower, RunWords, EncodeAll, RunSource, RawStraight, Low, Alternates, Code, ModuleQuiet, Assembles,
         ModuleEnv;
    var words := EncodeAll(Code(Lower(m).value));
    var k := CompilerCorrect(m, rx);
    assert ModuleEnv(m).Ok? && |m.tests| == 1 by { Accepted(m); }
    SourceSafe(m, framed, rx);
    var end := RunWords(words, k, Initial(rx));
    NoEvents(rx);
    if n <= k {
      var s := RunWords(words, n, Initial(rx));
      RunTracks(words, n, Initial(rx));
      RunTracks(words, k - n, s);
      RunWordsAdds(words, n, k - n, Initial(rx));
      AlternatesPrefix(s.dev.log, end.dev.log);
      if s.status != Running {
        WordsStay(words, k - n, s);
      }
    } else {
      RunWordsAdds(words, k, n - k, Initial(rx));
      WordsStay(words, n - k, end);
    }
  }

  lemma Accepted(m: Module)
    requires Lower(m).Ok?
    ensures ModuleEnv(m).Ok? && |m.tests| == 1
  {
    hide EmitTest, ModuleEnv, ProcTable;
  }

  lemma NoEvents(rx: seq<byte>)
    ensures Tracks(Initial(rx).dev)
  {
  }
}
