/**
 * What a test means to someone who cannot see registers: bytes sent, bytes received, and residues
 * remembered until their frame closes.
 */
module Meaning {
  import opened Prelude
  import opened Asm
  import opened Encoder
  import opened Machine
  import opened Ast
  import opened ConstEval
  import Interp
  import Printer
  import C = Crc8

  /** A residue an `expect` found, and the status its failure halts with. */
  datatype Residue = Residue(value: byte, code: byte)

  datatype Place = Place(dev: Device, residues: seq<Residue>)

  datatype Ending =
    | Goes(at: Place)
    | Ends(dev: Device, status: Status)
    | Wrong      // a compile-time error was met

  type Context = Interp.Context

  function ReceiveBytes(at: Place, n: nat): Ending
    decreases n
  {
    if n == 0 then Goes(at)
    else if at.dev.rx == [] then Ends(at.dev, Starved)
    else ReceiveBytes(at.(dev := Received(at.dev)), n - 1)
  }

  /** Bytes are received until one is not WAIT_STATE; the CRC covers that last byte only. */
  function PollBytes(at: Place): Ending
    decreases |at.dev.rx|
  {
    var dev := at.dev.(crc := 0);
    if dev.rx == [] then Ends(dev, Starved)
    else if dev.rx[0] == 0x0F then PollBytes(at.(dev := Received(dev)))
    else Goes(at.(dev := Received(dev)))
  }

  function ExpectByte(at: Place, code: byte): Ending {
    if at.dev.rx == [] then Ends(at.dev, Starved) else
    var dev := Received(at.dev);
    Goes(Place(dev, at.residues + [Residue(dev.crc, code)]))
  }

  /** A raw instruction acts on the device alone. */
  function RawOnDevice(mnemonic: string, operands: seq<Operand>, at: Place): Ending {
    match Resolve(mnemonic, operands, map[])
    case Err(_) => Ends(at.dev, Undefined)
    case Ok(Jump(_, _, _, _)) => Ends(at.dev, Undefined)
    case Ok(LoadConst(_, _)) => Goes(at)
    case Ok(Plain(i)) =>
      var eff := Exec(i, ZERO_REGS, at.dev);
      if eff.status == Running then Goes(at.(dev := eff.dev)) else Ends(eff.dev, eff.status)
  }

  /** The code of the first residue that is not zero. */
  function FirstNonzero(residues: seq<Residue>): Option<byte>
    decreases |residues|
  {
    if residues == [] then None
    else if residues[0].value != 0 then Some(residues[0].code)
    else FirstNonzero(residues[1..])
  }

  /** CS# goes high, then the first residue that is not zero decides. */
  function FrameEnds(outer: seq<Residue>, at: Place): Ending {
    var dev := Interp.CloseBus(at.dev);
    match FirstNonzero(at.residues)
    case None => Goes(Place(dev, outer))
    case Some(code) => Ends(dev, Halted(code))
  }

  function SimpleMeaning(c: Context, s: Stmt, at: Place): Ending
    requires !s.Frame? && !s.CallProc? && !s.Repeat?
  {
    match s
    case Pass => Ends(at.dev, Halted(0))
    case Fail(code) => (match Interp.FailWith(code, at.dev) case Stop(dev, status) => Ends(dev, status) case _ => Wrong)
    case Raw(mnemonic, operands) => RawOnDevice(mnemonic, Printer.ReadAll(operands), at)
    case Send(bytes, appendCrc) =>
      (match EvalBytes(bytes, c.env)
       case Err(_) => Wrong
       case Ok(b) => Goes(at.(dev := Interp.PutAll(at.dev, if appendCrc then b + [C.Crc8(b)] else b))))
    case CrcRegion(sends) =>
      (match Interp.SendRegion(sends, c.env, at.dev)
       case None => Wrong
       case Some(dev) => Goes(at.(dev := dev)))
    case Config(keywords) => RawOnDevice("set_config", Printer.ReadAll(keywords), at)
    case Recv(targets) => ReceiveBytes(at, |targets|)
    case WaitState(_) => PollBytes(at)
    case Expect(elseCode) =>
      (match EvalByte(elseCode, c.env)
       case Err(_) => Wrong
       case Ok(code) => if !c.inFrame then Wrong else ExpectByte(at, code))
  }

  function StmtMeaning(c: Context, s: Stmt, at: Place): Ending
    decreases Interp.Idle(c), s, 0
  {
    if c.inFrame && !Interp.InFrame(s) then Wrong else
    match s
    case Frame(body) =>
      assert Interp.Idle(c.(inFrame := true)) == Interp.Idle(c);
      (match BodyMeaning(c.(inFrame := true), body, Place(Interp.OpenBus(at.dev), []))
       case Goes(end) => FrameEnds(at.residues, end)
       case out => out)
    case CallProc(name, args) => CallMeaning(c, name, args, at)
    case Repeat(count, body) =>
      (match EvalInt(count, c.env)
       case Err(_) => Wrong
       case Ok(n) => if !(0 <= n <= 1024) then Wrong else RepeatMeaning(c, n, body, at))
    case _ => SimpleMeaning(c, s, at)
  }

  function BodyMeaning(c: Context, body: seq<Stmt>, at: Place): Ending
    decreases Interp.Idle(c), body, 0
  {
    if body == [] then Goes(at) else
    match StmtMeaning(c, body[0], at)
    case Goes(at') => BodyMeaning(c, body[1..], at')
    case out => out
  }

  function CallMeaning(c: Context, name: string, args: seq<Arg>, at: Place): Ending
    decreases Interp.Idle(c), args, 0
  {
    if name in c.env.fns || name !in c.procs || name in c.active then Wrong else
    var p := c.procs[name];
    match BindArgs(name, p.params, args, c.env)
    case Err(_) => Wrong
    case Ok(bindings) =>
      var c' := c.(env := ChildValues(c.env, bindings), active := c.active + [name]);
      assert name in Interp.Idle(c) && name !in Interp.Idle(c') && Interp.Idle(c') < Interp.Idle(c);
      BodyMeaning(c', p.body, at)
  }

  function RepeatMeaning(c: Context, n: nat, body: seq<Stmt>, at: Place): Ending
    decreases Interp.Idle(c), body, 1, n
  {
    if n == 0 then Goes(at) else
    match BodyMeaning(c, body, at)
    case Goes(at') => RepeatMeaning(c, n - 1, body, at')
    case out => out
  }

  function TestMeaning(procs: map<string, ProcDef>, env: Env, stmts: seq<Stmt>, rx: seq<byte>): Ending {
    BodyMeaning(Interp.Context(procs, env, [], false), stmts, Place(Initial(rx).dev, []))
  }
}

/** Registers are invisible: which of them are lent, and for how long, never shows on the bus. */
module Invisible {
  import opened Prelude
  import opened Text
  import opened Isa
  import opened Machine
  import opened Asm
  import opened Encoder
  import opened Ast
  import opened ConstEval
  import opened Registers
  import opened EmittedLines
  import opened Emit
  import opened Interp
  import opened Verdicts
  import opened Labels
  import opened Correct
  import opened Conservation
  import opened Values
  import opened Program
  import opened Driver
  import opened Assembler
  import opened Simulation
  import opened Linkage
  import opened CompiledText
  import Lexer
  import P = Printer
  import M = Meaning
  import C = Crc8

  // ----- raw statements that name no register -----

  /** No register but x0 is named, and x0 neither holds nor keeps anything. */
  predicate RegFree(i: Straight) {
    if IsData(i) then i.rd % 16 == 0 else
    match i
    case PutByteReg(r) => r % 16 == 0
    case GetByte(r) => r % 16 == 0
    case PutBitsReg(r, _) => r % 16 == 0
    case GetBits(r, _) => r % 16 == 0
    case TarReg(r) => r % 16 == 0
    case GetAlert(r) => r % 16 == 0
    case WaitOn(r, _, _) => r % 16 == 0
    case Mark(_, r) => r % 16 == 0
    case Rdsr(r, _) => r % 16 == 0
    case _ => true
  }

  predicate RawBlind(mnemonic: string, operands: seq<Operand>) {
    match Resolve(mnemonic, operands, map[])
    case Err(_) => true
    case Ok(Plain(i)) => RegFree(i)
    case Ok(LoadConst(rd, _)) => rd % 16 == 0
    case Ok(Jump(_, _, _, _)) => false
  }

  /** The raw statements of `s` neither branch nor look at a register. */
  predicate Blind(s: Stmt) {
    match s
    case Raw(mnemonic, operands) => RawBlind(mnemonic, P.ReadAll(operands))
    case Frame(body) => forall t :: t in body ==> Blind(t)
    case Repeat(_, body) => forall t :: t in body ==> Blind(t)
    case _ => true
  }

  predicate AllBlind(body: seq<Stmt>) { forall t :: t in body ==> Blind(t) }

  predicate ProcsBlind(procs: map<string, ProcDef>) { forall name :: name in procs ==> AllBlind(procs[name].body) }

  predicate ModuleBlind(m: Module) {
    && (forall k :: 0 <= k < |m.procs| ==> AllBlind(m.procs[k].body))
    && (forall k :: 0 <= k < |m.tests| ==> AllBlind(m.tests[k].stmts))
  }

  lemma RawBlindKeeps(mnemonic: string, operands: seq<Operand>)
    requires RawBlind(mnemonic, operands)
    ensures RawKeeps(mnemonic, operands, WINDOW)
  {
    hide Resolve;
  }

  lemma {:induction false} BlindKeeps(s: Stmt)
    requires Blind(s)
    ensures Keeps(s, WINDOW)
  {
    hide RawBlind, RawKeeps, WINDOW, P.ReadAll;
    match s
    case Raw(mnemonic, operands) => RawBlindKeeps(mnemonic, P.ReadAll(operands));
    case Frame(body) => BodyBlindKeeps(body);
    case Repeat(_, body) => BodyBlindKeeps(body);
    case _ =>
  }

  lemma {:induction false} BodyBlindKeeps(body: seq<Stmt>)
    requires AllBlind(body)
    ensures AllKeep(body, WINDOW)
  {
    hide Blind, Keeps, WINDOW;
    forall t | t in body ensures Keeps(t, WINDOW) {
      BlindKeeps(t);
    }
  }

  lemma ModuleBlindKeeps(m: Module)
    requires ModuleBlind(m)
    ensures ModuleKeeps(m, WINDOW)
  {
    hide AllBlind, AllKeep, WINDOW;
    forall k | 0 <= k < |m.procs| ensures AllKeep(m.procs[k].body, WINDOW) {
      BodyBlindKeeps(m.procs[k].body);
    }
    forall k | 0 <= k < |m.tests| ensures AllKeep(m.tests[k].stmts, WINDOW) {
      BodyBlindKeeps(m.tests[k].stmts);
    }
  }

  // ----- what is left when registers are not looked at -----

  function Residues(verdicts: seq<Verdict>): (r: seq<M.Residue>)
    ensures |r| == |verdicts|
    ensures forall k :: 0 <= k < |r| ==> r[k] == M.Residue(verdicts[k].residue, verdicts[k].code)
  {
    if verdicts == [] then [] else [M.Residue(verdicts[0].residue, verdicts[0].code)] + Residues(verdicts[1..])
  }

  function Seen(at: Position): M.Place { M.Place(at.dev, Residues(at.verdicts)) }

  /** The same to someone who cannot see registers. */
  predicate Same(out: Outcome, r: M.Ending) {
    match out
    case Next(at) => r == M.Goes(Seen(at))
    case Stop(dev, status) => r == M.Ends(dev, status)
    case Fault => true
  }

  lemma {:induction false} ResiduesDecide(verdicts: seq<Verdict>, regs: Regs)
    requires forall v :: v in verdicts ==> regs[v.reg] == v.residue
    ensures FirstFailing(verdicts, regs) == M.FirstNonzero(Residues(verdicts))
    decreases |verdicts|
  {
    if verdicts != [] {
      ResiduesDecide(verdicts[1..], regs);
      assert Residues(verdicts)[1..] == Residues(verdicts[1..]);
    }
  }

  lemma RegFreeExec(i: Straight, regs: Regs, dev: Device)
    requires RegFree(i)
    ensures Exec(i, regs, dev).dev == Exec(i, ZERO_REGS, dev).dev
    ensures Exec(i, regs, dev).status == Exec(i, ZERO_REGS, dev).status
  {
    hide DataValue, C.Update;
  }

  lemma RawSame(mnemonic: string, operands: seq<Operand>, at: Position)
    requires RawBlind(mnemonic, operands)
    ensures Same(RawEffect(mnemonic, operands, at), M.RawOnDevice(mnemonic, operands, Seen(at)))
  {
    hide Resolve, Exec, RegFree, Residues;
    match Resolve(mnemonic, operands, map[])
    case Ok(Plain(i)) => RegFreeExec(i, at.regs, at.dev);
    case _ =>
  }

  lemma ConfigBlind(operands: seq<Operand>)
    ensures RawBlind(SET_CONFIG, operands)
  {
    ConfigName();
    hide MnemonicOf, ResolveConfig;
    ConfigPlain(Args(operands, map[]));
  }

  lemma {:induction false} ReceiveSame(at: Position, targets: seq<RecvTarget>)
    ensures Same(Receive(at, targets), M.ReceiveBytes(Seen(at), |targets|))
    decreases |targets|
  {
    hide Lend, Received, Free, Residues;
    if targets != [] {
      match ReceiveOne(at, NameOf(targets[0]))
      case Next(at1) => ReceiveSame(at1, targets[1..]);
      case _ =>
    }
  }

  lemma {:induction false} PollIntoSame(at: Position, resp: Leased, k: Leased)
    ensures Same(PollInto(at, resp, k), M.PollBytes(Seen(at)))
    ensures PollInto(at, resp, k).Next? ==> PollInto(at, resp, k).at.verdicts == at.verdicts
    decreases |at.dev.rx|
  {
    hide C.Update, Residues;
    var dev := at.dev.(crc := 0);
    if dev.rx != [] {
      var regs := Write(Write(at.regs, resp, dev.rx[0]), k, WAIT_STATE_CODE);
      PollIntoSame(at.(dev := Received(dev), regs := regs), resp, k);
    }
  }

  lemma PollSame(at: Position, bind: Option<string>)
    ensures Same(Poll(at, bind), M.PollBytes(Seen(at)))
  {
    hide Lend, Alloc, Free, PollInto, M.PollBytes, Residues;
    if Lend(at.pool, bind).Some? && Alloc(Lend(at.pool, bind).value.pool).Some? {
      PollIntoSame(at, Lend(at.pool, bind).value.reg, Alloc(Lend(at.pool, bind).value.pool).value.reg);
    }
  }

  lemma ExpectSame(at: Position, code: byte)
    ensures Same(ExpectCrc(at, code), M.ExpectByte(Seen(at), code))
  {
    hide Lend, Alloc, Free, Received;
    match ExpectCrc(at, code)
    case Next(at') => assert Residues(at'.verdicts) == Residues(at.verdicts) + [M.Residue(at'.dev.crc, code)];
    case _ =>
  }

  lemma SimpleSame(c: Context, s: Stmt, at: Position)
    requires !s.Frame? && !s.CallProc? && !s.Repeat? && Blind(s)
    ensures Same(InterpSimple(c, s, at), M.SimpleMeaning(c, s, Seen(at)))
  {
    hide RawEffect, M.RawOnDevice, Receive, M.ReceiveBytes, Poll, M.PollBytes, ExpectCrc, M.ExpectByte, EvalBytes,
         EvalByte, SendRegion, PutAll, C.Crc8, P.ReadAll, RawBlind, Residues, Lexer.ReadOperand;
    match s
    case Raw(mnemonic, operands) => RawSame(mnemonic, P.ReadAll(operands), at);
    case Config(keywords) =>
      ConfigBlind(P.ReadAll(keywords));
      RawSame(SET_CONFIG, P.ReadAll(keywords), at);
    case Recv(targets) => ReceiveSame(at, targets);
    case WaitState(bind) => PollSame(at, bind);
    case Expect(elseCode) =>
      if EvalByte(elseCode, c.env).Ok? {
        ExpectSame(at, EvalByte(elseCode, c.env).value);
      }
    case _ =>
  }

  // ----- every statement -----

  lemma EndSame(outer: seq<Verdict>, at: Position)
    requires Remembered(at, WINDOW)
    ensures Same(EndFrame(outer, at), M.FrameEnds(Residues(outer), Seen(at)))
  {
    hide FirstFailing, M.FirstNonzero, Exit, CloseBus, Residues;
    AllRemembered(at);
    ResiduesDecide(at.verdicts, at.regs);
  }

  lemma AllRemembered(at: Position)
    requires Remembered(at, WINDOW)
    ensures forall v :: v in at.verdicts ==> at.regs[v.reg] == v.residue
  {
  }

  /** A statement does on the bus what it means without registers, whichever it is lent. */
  lemma {:induction false} StmtSame(e: Emitter, s: Stmt, e': Emitter, at: Position)
    requires Tracked(e, WINDOW) && Agrees(e, at) && Remembered(at, WINDOW) && EmitStmt(e, s) == Ok(e')
    requires Blind(s) && ProcsBlind(e.procs)
    ensures Same(InterpStmt(ContextOf(e), s, at), M.StmtMeaning(ContextOf(e), s, Seen(at)))
    decreases IdleProcs(e), s, 0
  {
    hide Tracked, Agrees, Remembered, EmitSimple, OpenFrame, CloseFrame, EvalInt, EmitBody, EmitRepeat, EmitCall,
         InFrame, InterpSimple, InterpCall, InterpRepeat, InterpBody, EndFrame, ProcsBlind, WINDOW, Seen,
         BeginFrame, M.SimpleMeaning, M.CallMeaning, M.RepeatMeaning, M.BodyMeaning, M.FrameEnds;
    match s
    case Frame(body) => FrameSame(e, body, e', at);
    case CallProc(name, args) => CallSame(e, name, args, e', at);
    case Repeat(count, body) => RepeatSame(e, EvalInt(count, e.env).value, body, e', at);
    case _ => SimpleSame(ContextOf(e), s, at);
  }

  lemma {:induction false} FrameSame(e: Emitter, body: seq<Stmt>, e': Emitter, at: Position)
    requires Tracked(e, WINDOW) && Agrees(e, at) && Remembered(at, WINDOW) && EmitStmt(e, Frame(body)) == Ok(e')
    requires AllBlind(body) && ProcsBlind(e.procs)
    ensures Same(InterpStmt(ContextOf(e), Frame(body), at), M.StmtMeaning(ContextOf(e), Frame(body), Seen(at)))
    decreases IdleProcs(e), body, 1
  {
    hide Tracked, Agrees, OpenFrame, CloseFrame, EmitBody, EndFrame, ProcsBlind, InterpBody, AllBlind, Step, WINDOW,
         OpenBus, M.BodyMeaning, M.FrameEnds, Remembered, Enter;
    var e1 := OpenFrame(e).value;
    assert IdleProcs(e1) == IdleProcs(e);
    var e2 := EmitBody(e1, body).value;
    OpenKeeps(e, e1, at, WINDOW);
    OpenTracked(e, e1, WINDOW);
    BodyBlindKeeps(body);
    ProcsBlindKeep(e.procs);
    BodyPreserves(e1, body, e2, BeginFrame(at), WINDOW);
    BodySame(e1, body, e2, BeginFrame(at));
    assert ContextOf(e1) == ContextOf(e).(inFrame := true);
    assert Seen(BeginFrame(at)) == M.Place(OpenBus(at.dev), []);
    match InterpBody(ContextOf(e1), body, BeginFrame(at))
    case Next(end) => EndSame(at.verdicts, end);
    case _ =>
  }

  lemma ProcsBlindKeep(procs: map<string, ProcDef>)
    requires ProcsBlind(procs)
    ensures ProcsKeep(procs, WINDOW)
  {
    hide AllBlind, AllKeep, WINDOW;
    forall name | name in procs ensures AllKeep(procs[name].body, WINDOW) {
      BodyBlindKeeps(procs[name].body);
    }
  }

  lemma {:induction false} BodySame(e: Emitter, body: seq<Stmt>, e': Emitter, at: Position)
    requires Tracked(e, WINDOW) && Agrees(e, at) && Remembered(at, WINDOW) && EmitBody(e, body) == Ok(e')
    requires AllBlind(body) && ProcsBlind(e.procs)
    ensures Same(InterpBody(ContextOf(e), body, at), M.BodyMeaning(ContextOf(e), body, Seen(at)))
    decreases IdleProcs(e), body, 0
  {
    hide Tracked, Step, Agrees, Remembered, EmitStmt, InterpStmt, M.StmtMeaning, ProcsBlind, Blind, WINDOW, Seen;
    if body != [] {
      var e1 := EmitStmt(e, body[0]).value;
      assert IdleProcs(e1) == IdleProcs(e);
      BlindKeeps(body[0]);
      ProcsBlindKeep(e.procs);
      StmtTracked(e, body[0], e1, WINDOW);
      StmtPreserves(e, body[0], e1, at, WINDOW);
      StmtSame(e, body[0], e1, at);
      match InterpStmt(ContextOf(e), body[0], at)
      case Next(at1) =>
        assert ContextOf(e1) == ContextOf(e);
        BodySame(e1, body[1..], e', at1);
      case _ =>
    }
  }

  lemma LeaveSeen(at: Position)
    ensures Seen(Leave(at)) == Seen(at) && Seen(at.(pool := Enter(at.pool))) == Seen(at)
  {
  }

  lemma {:induction false} CallSame(e: Emitter, name: string, args: seq<Ast.Arg>, e': Emitter, at: Position)
    requires Tracked(e, WINDOW) && Agrees(e, at) && Remembered(at, WINDOW) && EmitCall(e, name, args) == Ok(e')
    requires ProcsBlind(e.procs)
    ensures Same(InterpCall(ContextOf(e), name, args, at), M.CallMeaning(ContextOf(e), name, args, Seen(at)))
    decreases IdleProcs(e), args, 0
  {
    hide Tracked, Step, Agrees, EmitBody, BindArgs, InterpBody, M.BodyMeaning, AllBlind, ExitExpansion,
         EnterExpansion, Enter, Leave, Seen, WINDOW, Remembered;
    var p := e.procs[name];
    var bindings := BindArgs(name, p.params, args, e.env).value;
    var e1 := EnterExpansion(e).value;
    EnterTracked(e, e1, WINDOW);
    EnteredOnly(e, e1);
    EnterAgrees(e, e1, at, WINDOW);
    var e2 := Inlined(e1, name, bindings);
    TrackedContext(e1, e2, WINDOW);
    AgreesContext(e1, e2);
    assert name in IdleProcs(e) && name !in IdleProcs(e2) && IdleProcs(e2) < IdleProcs(e);
    var e3 := EmitBody(e2, p.body).value;
    var at1 := at.(pool := Enter(at.pool));
    BodySame(e2, p.body, e3, at1);
    LeaveSeen(at);
    match InterpBody(ContextOf(e2), p.body, at1)
    case Next(end) => LeaveSeen(end);
    case _ =>
  }

  lemma {:induction false} RepeatSame(e: Emitter, n: nat, body: seq<Stmt>, e': Emitter, at: Position)
    requires Tracked(e, WINDOW) && Agrees(e, at) && Remembered(at, WINDOW) && EmitRepeat(e, n, body) == Ok(e')
    requires AllBlind(body) && ProcsBlind(e.procs)
    ensures Same(InterpRepeat(ContextOf(e), n, body, at), M.RepeatMeaning(ContextOf(e), n, body, Seen(at)))
    decreases IdleProcs(e), body, 1, n
  {
    hide Tracked, Step, Agrees, EmitBody, InterpBody, M.BodyMeaning, AllBlind, ExitExpansion, EnterExpansion, Enter,
         Leave, ProcsBlind, Seen, WINDOW, Sound;
    if n > 0 {
      var e1 := EnterExpansion(e).value;
      EnterTracked(e, e1, WINDOW);
      EnteredOnly(e, e1);
      EnterAgrees(e, e1, at, WINDOW);
      assert IdleProcs(e1) == IdleProcs(e) && ContextOf(e1) == ContextOf(e);
      var e2 := EmitBody(e1, body).value;
      BodyBlindKeeps(body);
      ProcsBlindKeep(e.procs);
      BodyTracked(e1, body, e2, WINDOW);
      var at1 := at.(pool := Enter(at.pool));
      BodyPreserves(e1, body, e2, at1, WINDOW);
      BodySame(e1, body, e2, at1);
      LeaveSeen(at);
      var e3 := ExitExpansion(e2);
      ExitTracked(e, e1, e2, e3, WINDOW);
      assert IdleProcs(e3) == IdleProcs(e);
      match InterpBody(ContextOf(e), body, at1)
      case Next(end) =>
        LeaveAgrees(e2, end);
        LeaveSeen(end);
        assert ContextOf(e3) == ContextOf(e);
        RepeatSame(e3, n - 1, body, e', Leave(end));
      case _ =>
    }
  }

  // ----- whole programs -----

  /** What an accepted module means on the input `rx`. */
  function MeaningOf(m: Module, rx: seq<byte>): M.Ending
    requires ModuleEnv(m).Ok? && |m.tests| == 1
  {
    M.TestMeaning(ProcTable(m.procs), ModuleEnv(m).value, m.tests[0].stmts, rx)
  }

  lemma TableBlind(m: Module)
    requires ModuleBlind(m)
    ensures ProcsBlind(ProcTable(m.procs))
  {
    hide Blind, ProcTable;
    ProcTableFrom(m.procs);
    forall name | name in ProcTable(m.procs) ensures AllBlind(ProcTable(m.procs)[name].body) {
      var k :| 0 <= k < |m.procs| && m.procs[k] == ProcTable(m.procs)[name];
    }
  }

  lemma SourceSame(m: Module, rx: seq<byte>)
    requires Lower(m).Ok? && ModuleBlind(m)
    ensures Same(RunSource(m, rx), MeaningOf(m, rx))
  {
    hide EmitTest, InterpBody, M.BodyMeaning, AllBlind, ProcTable, ModuleEnv, Tracked, Halts, ProcsBlind, P.WriteAll,
         WINDOW, TrailerLines;
    var stmts := m.tests[0].stmts;
    var e := Start(true, ProcTable(m.procs), ModuleEnv(m).value);
    var e1, e2 := TestParts(e, stmts, Lowered(true, m).value);
    StartTracked(e, e1, WINDOW);
    TableBlind(m);
    BodySame(e1, stmts, e2, Begin(rx));
  }

  /**
   * If no raw statement branches or names a register, the words obtained from the text of an
   * accepted module, on every input, come to a stop having done on the bus what the module means
   * without registers. So allocation, scopes, reserved registers and trailers never show.
   */
  lemma RegistersInvisible(m: Module, rx: seq<byte>) returns (n: nat)
    requires Lower(m).Ok? && ModuleBlind(m) && AssembleText(LowerText(m).value).Some?
    ensures var s := RunWords(EncodeAll(AssembleText(LowerText(m).value).value), n, Initial(rx));
            && MeaningOf(m, rx) == M.Ends(s.dev, s.status)
            && (s.status.Halted? || s.status.Trapped? || s.status.Starved?)
  {
    hide Lower, LowerText, AssembleText, RunWords, EncodeAll, RunSource, MeaningOf, ModuleBlind, ModuleKeeps, WINDOW;
    ModuleBlindKeeps(m);
    KeepsFewer(m);
    n := EndToEnd(m, rx);
    SourceSame(m, rx);
  }

  lemma KeepsFewer(m: Module)
    requires ModuleKeeps(m, WINDOW)
    ensures RawStraight(m)
  {
    hide AllKeep, WINDOW;
    forall k | 0 <= k < |m.procs| ensures AllKeep(m.procs[k].body, {}) {
      BodyFewer(m.procs[k].body);
    }
    forall k | 0 <= k < |m.tests| ensures AllKeep(m.tests[k].stmts, {}) {
      BodyFewer(m.tests[k].stmts);
    }
  }

  lemma {:induction false} StmtFewer(s: Stmt)
    requires Keeps(s, WINDOW)
    ensures Keeps(s, {})
  {
    hide Resolve, WINDOW, P.ReadAll, InstrWrites;
    match s
    case Frame(body) => BodyFewer(body);
    case Repeat(_, body) => BodyFewer(body);
    case _ =>
  }

  lemma {:induction false} BodyFewer(body: seq<Stmt>)
    requires AllKeep(body, WINDOW)
    ensures AllKeep(body, {})
  {
    hide Keeps, WINDOW;
    forall t | t in body ensures Keeps(t, {}) {
      StmtFewer(t);
    }
  }
}
