/** Whole programs: what an accepted module does when its words are run. */
module Program {
  import opened Prelude
  import opened Isa
  import opened Machine
  import opened Asm
  import opened Encoder
  import opened Assembler
  import opened LabelMachine
  import opened EmittedLines
  import opened Simulation
  import opened Ast
  import opened ConstEval
  import opened Registers
  import opened Emit
  import opened Interp
  import opened Verdicts
  import opened Labels
  import opened Correct
  import opened Driver
  import P = Printer
  import Lexer

  // ----- the shape of an emitted program -----

  /** The emitter before and after the statements of the test. */
  lemma TestParts(e: Emitter, stmts: seq<Stmt>, e': Emitter) returns (e1: Emitter, e2: Emitter)
    requires e.Valid() && e.lines == [] && e.asm == [] && e.frames == [] && e.trailers == []
    requires EmitTest(e, stmts) == Ok(e')
    ensures e1 == e.(lines := PROLOGUE, asm := P.WriteAll(PROLOGUE, true))
    ensures EmitBody(e1, stmts) == Ok(e2) && e2.frames == []
    ensures e'.lines == e2.lines + TrailerLines(e2.trailers)
    ensures e'.asm == e2.asm + P.WriteAll(TrailerLines(e2.trailers), true)
  {
    hide EmitBody, PushTrailers, TrailerLines, P.Write;
    e1 := Push(Push(e, PROLOGUE[0]).value, PROLOGUE[1]).value;
    assert e1.lines == PROLOGUE;
    assert e1.asm == P.WriteAll(PROLOGUE, true);
    e2 := EmitBody(e1, stmts).value;
    PushTrailersLines(e2.(trailers := []), e2.trailers, e');
  }

  ghost predicate OnlyGlobl(lines: seq<Line>) {
    forall i :: 0 <= i < |lines| && lines[i].Directive? ==> lines[i] == PROLOGUE[0]
  }

  lemma {:induction false} NoEqus(lines: seq<Line>, n: nat)
    requires OnlyGlobl(lines) && n <= |lines|
    ensures EquPass(lines, n) == EquState(map[], [])
  {
    if n > 0 {
      NoEqus(lines, n - 1);
    }
  }

  lemma TrailersPresent(lines: seq<Line>, trailers: seq<Trailer>)
    ensures HasTrailers(lines + TrailerLines(trailers), trailers)
  {
    var all := lines + TrailerLines(trailers);
    forall t | t in trailers ensures exists k :: HasTrailer(all, t, k) {
      var i :| 0 <= i < |trailers| && trailers[i] == t;
      var k := |lines| + 2 * i;
      assert all[k] == TrailerLines(trailers)[2 * i] && all[k + 1] == TrailerLines(trailers)[2 * i + 1];
      assert HasTrailer(all, t, k);
    }
  }

  lemma TrailersHaveNoDirective(lines: seq<Line>, trailers: seq<Trailer>)
    requires OnlyGlobl(lines)
    ensures OnlyGlobl(lines + TrailerLines(trailers))
  {
  }

  /** The whole program is a place where the emitted statements run as they should. */
  lemma WholeProgram(e1: Emitter, stmts: seq<Stmt>, e2: Emitter)
    requires Sound(e1) && Labelled(e1) && e1.frames == [] && EmitBody(e1, stmts) == Ok(e2)
    ensures Within(e2, e2.lines + TrailerLines(e2.trailers))
    ensures UniqueLabels(e2.lines + TrailerLines(e2.trailers))
    ensures OnlyGlobl(e2.lines + TrailerLines(e2.trailers))
  {
    hide EmitBody, TrailerLines, HasTrailers, NamesFresh, TrailerNames, PendingNames, UniqueLabels, IsWait;
    BodyLabelled(e1, stmts, e2);
    var lines := e2.lines + TrailerLines(e2.trailers);
    assert PendingNames(Pending(e2)) == [];
    assert FailNames(e2) == TrailerNames(e2.trailers);
    ProgramLabels(e2.lines, e2.trailers, e2.gensym);
    TrailersPresent(e2.lines, e2.trailers);
    TrailersHaveNoDirective(e2.lines, e2.trailers);
    NoEqus(lines, |lines|);
  }

  // ----- the interpreter stops -----

  /** A status the interpreter can stop with: never off the end, and never still running. */
  predicate Stopped(out: Outcome) { out.Stop? ==> !out.status.Running? && !out.status.OffEnd? }

  lemma RawStops(mnemonic: string, operands: seq<Operand>, at: Position)
    ensures Stopped(RawEffect(mnemonic, operands, at))
  {
    hide Resolve, DataValue;
  }

  lemma {:induction false} ReceiveStops(at: Position, targets: seq<RecvTarget>)
    ensures Stopped(Receive(at, targets))
    decreases |targets|
  {
    hide Received, Lend, Free;
    if targets != [] {
      match ReceiveOne(at, NameOf(targets[0]))
      case Next(at1) => ReceiveStops(at1, targets[1..]);
      case _ =>
    }
  }

  lemma {:induction false} PollStops(at: Position, resp: Leased, k: Leased)
    ensures Stopped(PollInto(at, resp, k))
    decreases |at.dev.rx|
  {
    hide C.Update;
    var dev := at.dev.(crc := 0);
    if dev.rx != [] {
      PollStops(at.(dev := Received(dev), regs := Write(Write(at.regs, resp, dev.rx[0]), k, WAIT_STATE_CODE)), resp, k);
    }
  }

  lemma WaitStops(at: Position, bind: Option<string>)
    ensures Stopped(Poll(at, bind))
  {
    hide PollInto, Lend, Alloc, Free;
    if Lend(at.pool, bind).Some? && Alloc(Lend(at.pool, bind).value.pool).Some? {
      PollStops(at, Lend(at.pool, bind).value.reg, Alloc(Lend(at.pool, bind).value.pool).value.reg);
    }
  }

  lemma SimpleStops(c: Context, s: Stmt, at: Position)
    requires !s.Frame? && !s.CallProc? && !s.Repeat?
    ensures Stopped(InterpSimple(c, s, at))
  {
    hide RawEffect, Receive, Poll, EvalBytes, EvalByte, SendRegion, PutAll, C.Crc8, Received, Lend, Alloc, Free,
         P.ReadAll, Lexer.ReadOperand;
    match s
    case Raw(mnemonic, operands) => RawStops(mnemonic, P.ReadAll(operands), at);
    case Config(keywords) => RawStops(SET_CONFIG, P.ReadAll(keywords), at);
    case Recv(targets) => ReceiveStops(at, targets);
    case WaitState(bind) => WaitStops(at, bind);
    case _ =>
  }

  lemma {:induction false} StmtStops(c: Context, s: Stmt, at: Position)
    ensures Stopped(InterpStmt(c, s, at))
    decreases Interp.Idle(c), s, 0
  {
    hide InterpSimple, InterpBody, InterpRepeat, InterpCall, EvalInt, FirstFailing, BeginFrame, Exit;
    match s
    case Frame(body) =>
      assert Interp.Idle(c.(inFrame := true)) == Interp.Idle(c);
      BodyStops(c.(inFrame := true), body, BeginFrame(at));
    case CallProc(name, args) => CallStops(c, name, args, at);
    case Repeat(count, body) =>
      if EvalInt(count, c.env).Ok? && EvalInt(count, c.env).value >= 0 {
        RepeatStops(c, EvalInt(count, c.env).value, body, at);
      }
    case _ => SimpleStops(c, s, at);
  }

  lemma {:induction false} BodyStops(c: Context, body: seq<Stmt>, at: Position)
    ensures Stopped(InterpBody(c, body, at))
    decreases Interp.Idle(c), body, 0
  {
    hide InterpStmt;
    if body != [] {
      StmtStops(c, body[0], at);
      match InterpStmt(c, body[0], at)
      case Next(at1) => BodyStops(c, body[1..], at1);
      case _ =>
    }
  }

  lemma {:induction false} CallStops(c: Context, name: string, args: seq<Arg>, at: Position)
    ensures Stopped(InterpCall(c, name, args, at))
    decreases Interp.Idle(c), args, 0
  {
    hide InterpBody, BindArgs, Enter, Leave;
    if name !in c.env.fns && name in c.procs && name !in c.active {
      match BindArgs(name, c.procs[name].params, args, c.env)
      case Err(_) =>
      case Ok(bindings) =>
        var c' := c.(env := ChildValues(c.env, bindings), active := c.active + [name]);
        assert name in Interp.Idle(c) && name !in Interp.Idle(c') && Interp.Idle(c') < Interp.Idle(c);
        BodyStops(c', c.procs[name].body, at.(pool := Enter(at.pool)));
    }
  }

  lemma {:induction false} RepeatStops(c: Context, n: nat, body: seq<Stmt>, at: Position)
    ensures Stopped(InterpRepeat(c, n, body, at))
    decreases Interp.Idle(c), body, 1, n
  {
    hide InterpBody, Enter, Leave;
    if n > 0 {
      var at1 := at.(pool := Enter(at.pool));
      BodyStops(c, body, at1);
      match InterpBody(c, body, at1)
      case Next(end) => RepeatStops(c, n - 1, body, Leave(end));
      case _ =>
    }
  }

  /** A raw `halt` stops the program, or is malformed. */
  lemma RawHaltStops(operands: seq<Operand>, at: Position)
    ensures !RawEffect("halt", operands, at).Next?
  {
    HaltName();
    hide MnemonicOf, InRange;
  }

  lemma TerminatorStops(c: Context, s: Stmt, at: Position)
    requires Terminator(s)
    ensures !InterpStmt(c, s, at).Next?
  {
    hide RawEffect, P.ReadAll, Lexer.ReadOperand;
    if s.Raw? {
      RawHaltStops(P.ReadAll(s.operands), at);
    }
  }

  /** A body with a terminator at its top level does not run past its end. */
  lemma {:induction false} HaltingBody(c: Context, body: seq<Stmt>, at: Position)
    requires Halts(body)
    ensures !InterpBody(c, body, at).Next?
    decreases |body|
  {
    hide InterpStmt, Terminator;
    if Terminator(body[0]) {
      TerminatorStops(c, body[0], at);
    } else {
      var k :| 0 <= k < |body| && Terminator(body[k]);
      assert Terminator(body[1..][k - 1]);
      if InterpStmt(c, body[0], at).Next? {
        HaltingBody(c, body[1..], InterpStmt(c, body[0], at).at);
      }
    }
  }

  // ----- the compiler is correct -----

  /** No raw statement branches, or writes a register in `kept`. */
  predicate ModuleKeeps(m: Module, kept: set<nat>) {
    && (forall k :: 0 <= k < |m.procs| ==> AllKeep(m.procs[k].body, kept))
    && (forall k :: 0 <= k < |m.tests| ==> AllKeep(m.tests[k].stmts, kept))
  }

  /** No raw statement branches. */
  predicate RawStraight(m: Module) { ModuleKeeps(m, {}) }

  lemma {:induction false} ProcTableFrom(procs: seq<ProcDef>)
    ensures forall name :: name in ProcTable(procs) ==> ProcTable(procs)[name] in procs
  {
    if procs != [] {
      ProcTableFrom(procs[..|procs| - 1]);
    }
  }

  lemma TableKeeps(m: Module, kept: set<nat>)
    requires ModuleKeeps(m, kept)
    ensures ProcsKeep(ProcTable(m.procs), kept)
  {
    hide Keeps, ProcTable;
    ProcTableFrom(m.procs);
    forall name | name in ProcTable(m.procs) ensures AllKeep(ProcTable(m.procs)[name].body, kept) {
      var k :| 0 <= k < |m.procs| && m.procs[k] == ProcTable(m.procs)[name];
    }
  }

  /** The prologue takes the machine to the first statement. */
  lemma PrologueSteps(e1: Emitter, lines: seq<Line>, rx: seq<byte>)
    requires e1.lines == PROLOGUE && e1.frames == [] && e1.pool == EMPTY_POOL && Prefix(e1.lines, lines)
    ensures At(e1, Begin(rx), RunLines(lines, 2, Initial(rx)))
  {
    hide Equs, RunLines;
    BlockAt([], PROLOGUE, lines);
    assert lines[0 + 0] == PROLOGUE[0] && lines[0 + 1] == PROLOGUE[1];
    StepLabel(lines, Initial(rx));
    StepLabel(lines, RunLines(lines, 1, Initial(rx)));
    RunLinesAdds(lines, 1, 1, Initial(rx));
  }

  /** The meaning of an accepted module on the input `rx`. */
  function RunSource(m: Module, rx: seq<byte>): Outcome
    requires ModuleEnv(m).Ok? && |m.tests| == 1
  {
    InterpTest(ProcTable(m.procs), ModuleEnv(m).value, m.tests[0].stmts, rx)
  }

  lemma LinesCorrect(m: Module, rx: seq<byte>) returns (n: nat)
    requires Lower(m).Ok? && RawStraight(m)
    ensures var s := RunLines(Lower(m).value, n, Initial(rx));
            RunSource(m, rx) == Stop(s.dev, s.status) && s.status != Running && s.status != OffEnd
  {
    hide EmitTest, InterpBody, TrailerLines, AllKeep, ProcTable, RunLines, ModuleEnv, Within, Sound, Labelled, At,
         Halts, ProcsKeep, P.WriteAll;
    var env := ModuleEnv(m).value;
    var stmts := m.tests[0].stmts;
    var e := Start(true, ProcTable(m.procs), env);
    var e1, e2 := TestParts(e, stmts, Lowered(true, m).value);
    StartSound(e, e1);
    StartLabelled(e, e1);
    var lines := Lower(m).value;
    WholeProgram(e1, stmts, e2);
    WithinPrefix(e1, e2, lines);
    PrologueSteps(e1, lines, rx);
    TableKeeps(m, {});
    var at := Begin(rx);
    var k := BodySteps(e1, stmts, e2, lines, at, RunLines(lines, 2, Initial(rx)));
    RunLinesAdds(lines, 2, k, Initial(rx));
    n := 2 + k;
    HaltingBody(ContextOf(e1), stmts, at);
    BodyStops(ContextOf(e1), stmts, at);
  }

  lemma StartSound(e: Emitter, e1: Emitter)
    requires e.Valid() && e.frames == [] && e1 == e.(lines := PROLOGUE, asm := e1.asm)
    ensures Sound(e1)
  {
  }

  lemma WithinPrefix(e1: Emitter, e2: Emitter, lines: seq<Line>)
    requires Prefix(e1.lines, e2.lines) && Within(e2, lines)
    ensures Prefix(e1.lines, lines)
  {
    hide Equs, UniqueLabels, HasTrailers;
    assert lines[..|e1.lines|] == lines[..|e2.lines|][..|e1.lines|];
  }

  /** Words always mean something: an undecodable one traps. */
  lemma {:induction false} WordsDefined(words: seq<u32>, n: nat, s: State)
    requires s.status != Undefined
    ensures RunWords(words, n, s).status != Undefined
    decreases n
  {
    hide Decode, DataValue, C.Update;
    if n > 0 {
      WordsDefined(words, n - 1, StepWord(words, s));
    }
  }

  /**
   * The words of every accepted module, on every input, come to a stop having done on the bus what
   * the interpreter says the source does, with the same status. A program never runs off its end:
   * it halts, traps, or waits for input that does not come.
   */
  lemma CompilerCorrect(m: Module, rx: seq<byte>) returns (n: nat)
    requires Lower(m).Ok? && Assembles(Lower(m).value) && RawStraight(m)
    ensures var s := RunWords(EncodeAll(Code(Lower(m).value)), n, Initial(rx));
            && RunSource(m, rx) == Stop(s.dev, s.status)
            && (s.status.Halted? || s.status.Trapped? || s.status.Starved?)
  {
    hide Lower, Assembly, RunLines, RunWords, EncodeAll, RunSource, RawStraight, AddrPass, Equs;
    var lines := Lower(m).value;
    var k := LinesCorrect(m, rx);
    StartMatches(lines, Initial(rx));
    n := Simulate(lines, k, Initial(rx), Initial(rx));
    WordsDefined(EncodeAll(Code(lines)), n, Initial(rx));
  }

  lemma StartMatches(lines: seq<Line>, s: State)
    requires s.pc == 0
    ensures Matches(lines, s, s)
  {
    hide Equs;
  }
}
