/** What is in the registers while a program runs: names keep their bytes, verdicts their residues. */
module Values {
  import opened Prelude
  import opened Text
  import opened Isa
  import opened Machine
  import opened Asm
  import opened Encoder
  import opened Ast
  import opened ConstEval
  import opened Registers
  import opened Emit
  import opened Interp
  import opened Verdicts
  import opened Ownership
  import opened Correct
  import opened Conservation
  import opened Extent
  import opened Names
  import Lexer
  import P = Printer
  import C = Crc8

  /** The registers that can be lent. */
  const WINDOW: set<nat> := {1, 2, 3, 4, 5, 6, 7, 8, 9, 10, 11, 12, 13, 14, 15}

  /** The registers of `kept` that are lent out at `at` hold the same at `at'`. */
  ghost predicate Kept(at: Position, at': Position, kept: set<nat>) {
    forall r :: r in kept && r < 16 && at.pool.busy[r] ==> at'.regs[r] == at.regs[r]
  }

  /** Verdicts still to come find in their registers the residues that were latched. */
  ghost predicate Remembered(at: Position, kept: set<nat>) {
    forall v :: v in at.verdicts && v.reg in kept ==> at.regs[v.reg] == v.residue
  }

  /** What a statement does to the registers, if it is run to its end. */
  ghost predicate Preserves(e': Emitter, at: Position, out: Outcome, kept: set<nat>) {
    out.Next? ==> Agrees(e', out.at) && Kept(at, out.at, kept) && Remembered(out.at, kept)
  }

  lemma PreservesTrans(e: Emitter, e1: Emitter, e2: Emitter, at: Position, at1: Position, out: Outcome, kept: set<nat>)
    requires Tracked(e, kept) && Tracked(e1, kept) && Step(e, e1, kept) && Agrees(e, at)
    requires Preserves(e1, at, Next(at1), kept) && Preserves(e2, at1, out, kept)
    ensures Preserves(e2, at, out, kept)
  {
    hide Tracked, Step, Backed, Remembered;
    if out.Next? {
      forall r | r in kept && r < 16 && at.pool.busy[r] ensures out.at.regs[r] == at.regs[r] {
        BusyStays(e, e1, r, kept);
      }
    }
  }

  lemma BusyStays(e: Emitter, e1: Emitter, r: nat, kept: set<nat>)
    requires Tracked(e, kept) && Tracked(e1, kept) && Step(e, e1, kept) && r < 16 && e.pool.busy[r]
    ensures e1.pool.busy[r]
  {
    hide Extends, Accounted, Named, Latched, Targeted, Judged, DistinctRegs, Sound, Defers, Spares;
    ExtendsBusy(e.pool, e1.pool, Pending(e), Pending(e1), r);
  }

  /** Writing a register that was free disturbs nothing. */
  lemma FreshWrite(e: Emitter, at: Position, reg: Leased, v: u32, kept: set<nat>)
    requires Tracked(e, kept) && Agrees(e, at) && Remembered(at, kept) && !at.pool.busy[reg]
    ensures var at' := at.(regs := Write(at.regs, reg, v)); Kept(at, at', kept) && Remembered(at', kept)
  {
    hide Accounted, Named, Latched, Targeted, Judged, DistinctRegs;
    forall v | v in at.verdicts ensures v.reg != reg {
      var i :| 0 <= i < |at.verdicts| && at.verdicts[i] == v;
      assert Pending(e)[i] in Pending(e);
    }
  }

  // ----- receiving -----

  lemma RecvOneKeeps(e: Emitter, target: RecvTarget, e': Emitter, at: Position, kept: set<nat>)
    requires Tracked(e, kept) && Agrees(e, at) && Remembered(at, kept) && RecvOne(e, target) == Ok(e')
    ensures Preserves(e', at, ReceiveOne(at, NameOf(target)), kept)
  {
    hide Tracked, Lend, Free, Received, P.Write, GetLine, Backed;
    var t := TakeReg(e, NameOf(target)).value;
    if at.dev.rx != [] {
      FreshWrite(e, at, t.reg, at.dev.rx[0], kept);
    }
  }

  lemma {:induction false} RecvAllKeeps(e: Emitter, targets: seq<RecvTarget>, e': Emitter, at: Position, kept: set<nat>)
    requires Tracked(e, kept) && Agrees(e, at) && Remembered(at, kept) && RecvAll(e, targets) == Ok(e')
    ensures Preserves(e', at, Receive(at, targets), kept)
    decreases |targets|
  {
    hide Tracked, Step, RecvOne, ReceiveOne, Agrees, Remembered;
    if targets != [] {
      var e1 := RecvOne(e, targets[0]).value;
      RecvOneKeeps(e, targets[0], e1, at, kept);
      match ReceiveOne(at, NameOf(targets[0]))
      case Next(at1) =>
        RecvOneTracked(e, targets[0], e1, kept);
        RecvAllKeeps(e1, targets[1..], e', at1, kept);
        PreservesTrans(e, e1, e', at, at1, Receive(at1, targets[1..]), kept);
      case _ =>
    }
  }

  /** A poll loop writes its two registers only. */
  lemma {:induction false} PollWrites(at: Position, resp: Leased, k: Leased)
    ensures match PollInto(at, resp, k)
            case Next(end) =>
              && end.pool == at.pool && end.verdicts == at.verdicts
              && (forall r :: 0 <= r < 16 && r != resp && r != k ==> end.regs[r] == at.regs[r])
            case _ => true
    decreases |at.dev.rx|
  {
    hide C.Update;
    var dev := at.dev.(crc := 0);
    if dev.rx != [] {
      PollWrites(at.(dev := Received(dev), regs := Write(Write(at.regs, resp, dev.rx[0]), k, WAIT_STATE_CODE)), resp, k);
    }
  }

  lemma WaitStateKeeps(e: Emitter, bind: Option<string>, e': Emitter, at: Position, kept: set<nat>)
    requires Tracked(e, kept) && Agrees(e, at) && Remembered(at, kept) && LowerWaitState(e, bind) == Ok(e')
    ensures Preserves(e', at, Poll(at, bind), kept)
  {
    hide Lend, Alloc, Free, PollInto, LowerWaitState, Sound, Accounted, Named, Latched, Targeted, Judged, DistinctRegs;
    var loop, resp, k := WaitStateLines(e, bind, e');
    WaitStateSound(e, bind, e');
    PollWrites(at, resp, k);
    FreshReg(e, resp);
    FreshReg(e, k);
    forall v | v in at.verdicts ensures v.reg != resp && v.reg != k {
      var i :| 0 <= i < |at.verdicts| && at.verdicts[i] == v;
      assert Pending(e)[i] in Pending(e);
    }
  }

  lemma ExpectKeeps(e: Emitter, elseCode: Expr, e': Emitter, at: Position, kept: set<nat>)
    requires Tracked(e, kept) && Agrees(e, at) && Remembered(at, kept) && LowerExpect(e, elseCode) == Ok(e')
    ensures Preserves(e', at, ExpectCrc(at, EvalByte(elseCode, e.env).value), kept)
  {
    hide Tracked, Step, RecvOne, Latch, ReceiveOne, EvalByte, Agrees, Remembered, Alloc;
    var e1 := RecvOne(e, Discard).value;
    RecvOneKeeps(e, Discard, e1, at, kept);
    match ReceiveOne(at, None)
    case Next(at1) =>
      RecvOneTracked(e, Discard, e1, kept);
      assert Pending(e1) == Pending(e) by { RecvOneSound(e, Discard, e1); }
      LatchKeeps(e1, EvalByte(elseCode, e.env).value, e', at1, kept);
      PreservesTrans(e, e1, e', at, at1, ExpectCrc(at, EvalByte(elseCode, e.env).value), kept);
    case _ =>
  }

  lemma LatchKeeps(e: Emitter, code: byte, e': Emitter, at: Position, kept: set<nat>)
    requires Tracked(e, kept) && Agrees(e, at) && Remembered(at, kept) && e.frames != [] && Latch(e, code) == Ok(e')
    ensures Alloc(at.pool).Some?
    ensures var t := Alloc(at.pool).value;
            var at' := at.(regs := Write(at.regs, t.reg, at.dev.crc), pool := t.pool,
                           verdicts := at.verdicts + [Verdict(t.reg, at.dev.crc, code)]);
            Preserves(e', at, Next(at'), kept)
  {
    hide Tracked, Alloc, Latch, FailLabel, Sound;
    LatchShape(e, code, e');
    FreshWrite(e, at, Alloc(at.pool).value.reg, at.dev.crc, kept);
  }

  // ----- raw statements -----

  lemma RawKeepsValues(mnemonic: string, operands: seq<Operand>, at: Position, kept: set<nat>)
    requires RawKeeps(mnemonic, operands, kept)
    ensures match RawEffect(mnemonic, operands, at)
            case Next(at') =>
              && at'.pool == at.pool && at'.verdicts == at.verdicts
              && forall r :: r in kept && r < 16 ==> at'.regs[r] == at.regs[r]
            case _ => true
  {
    hide Resolve, Exec, InstrWrites;
    match Resolve(mnemonic, operands, map[])
    case Ok(Plain(i)) =>
      forall r | r in kept && r < 16 ensures Exec(i, at.regs, at.dev).regs[r] == at.regs[r] {
        WritesExact(i, r, at.regs, at.dev);
      }
    case _ =>
  }

  lemma CopyKeeps(e: Emitter, mnemonic: Word, operands: seq<Lexeme>, e': Emitter, at: Position, kept: set<nat>)
    requires e.Valid() && Agrees(e, at) && Remembered(at, kept) && Copy(e, mnemonic, operands) == Ok(e')
    requires RawKeeps(mnemonic, P.ReadAll(operands), kept)
    ensures Preserves(e', at, RawEffect(mnemonic, P.ReadAll(operands), at), kept)
  {
    hide RawKeeps, RawEffect, P.ReadAll, Backed;
    RawKeepsValues(mnemonic, P.ReadAll(operands), at, kept);
  }

  lemma SendKeeps(e: Emitter, b: seq<byte>, e': Emitter, at: Position, kept: set<nat>)
    requires Tracked(e, kept) && Agrees(e, at) && Remembered(at, kept) && PushBytes(e, b) == Ok(e')
    ensures Preserves(e', at, Next(at.(dev := PutAll(at.dev, b))), kept)
  {
    hide PushBytes, PutAll, Accounted, Named, Latched, Targeted, Judged, DistinctRegs;
    PutSound(e, b, e');
  }

  lemma SimpleKeeps(e: Emitter, s: Stmt, e': Emitter, at: Position, kept: set<nat>)
    requires !s.Frame? && !s.CallProc? && !s.Repeat?
    requires Tracked(e, kept) && Agrees(e, at) && Remembered(at, kept) && EmitSimple(e, s) == Ok(e') && Keeps(s, kept)
    ensures Preserves(e', at, InterpSimple(ContextOf(e), s, at), kept)
  {
    hide Tracked, Push, Copy, PushBytes, RecvAll, LowerWaitState, LowerExpect, EvalBytes, EvalSends, SendRegion, EvalByte,
         RawEffect, FailWith, Receive, Poll, ExpectCrc, RawKeeps, PutAll, P.ReadAll, Agrees, Remembered, Kept;
    match s
    case Raw(mnemonic, operands) => CopyKeeps(e, mnemonic, operands, e', at, kept);
    case Send(bytes, appendCrc) =>
      var b := EvalBytes(bytes, e.env).value;
      SendKeeps(e, if appendCrc then b + [C.Crc8(b)] else b, e', at, kept);
    case CrcRegion(sends) =>
      var b := EvalSends(sends, e.env).value;
      RegionIs(sends, e.env, at.dev);
      SendKeeps(e, b + [C.Crc8(b)], e', at, kept);
    case Config(keywords) =>
      ConfigKeeps(P.ReadAll(keywords), kept);
      CopyKeeps(e, SET_CONFIG, keywords, e', at, kept);
    case Recv(targets) => RecvAllKeeps(e, targets, e', at, kept);
    case WaitState(bind) => WaitStateKeeps(e, bind, e', at, kept);
    case Expect(elseCode) => ExpectKeeps(e, elseCode, e', at, kept);
    case Fail(code) => FailStops(code, at.dev);
    case Pass =>
  }

  lemma FailStops(code: Numeral, dev: Device)
    ensures !FailWith(code, dev).Next?
  {
    hide Lexer.ReadOperand;
  }

  // ----- frames and expansions -----

  lemma OpenKeeps(e: Emitter, e1: Emitter, at: Position, kept: set<nat>)
    requires Tracked(e, kept) && e.frames == [] && OpenFrame(e) == Ok(e1) && Agrees(e, at)
    ensures Agrees(e1, BeginFrame(at)) && Remembered(BeginFrame(at), kept) && at.verdicts == []
    ensures BeginFrame(at).pool.busy == at.pool.busy && BeginFrame(at).regs == at.regs
  {
    hide Tracked, P.Write;
  }

  lemma CloseKeeps(e: Emitter, e': Emitter, at: Position)
    requires Sound(e) && |e.frames| == 1 && CloseFrame(e) == Ok(e') && Agrees(e, at)
    ensures match EndFrame([], at)
            case Next(end) => Agrees(e', end) && end.regs == at.regs && end.verdicts == []
            case _ => true
  {
    hide CloseFrame, Exit, FirstFailing, Sound;
    CloseSound(e, e');
    SoundValid(e);
    CloseLines(e, e');
  }

  lemma SoundValid(e: Emitter)
    requires Sound(e)
    ensures e.Valid()
  {
  }

  lemma EnterAgrees(e: Emitter, e1: Emitter, at: Position, kept: set<nat>)
    requires Tracked(e, kept) && EnterExpansion(e) == Ok(e1) && Agrees(e, at) && Remembered(at, kept)
    ensures var at1 := at.(pool := Enter(at.pool));
            Agrees(e1, at1) && Remembered(at1, kept) && at1.pool.busy == at.pool.busy
  {
    hide Tracked, Backed;
  }

  lemma LeaveAgrees(e: Emitter, at: Position)
    requires Sound(e) && Agrees(e, at)
    ensures Agrees(ExitExpansion(e), Leave(at)) && Leave(at).regs == at.regs && Leave(at).verdicts == at.verdicts
  {
    hide Agrees, ExitExpansion, Exit, Retain, Sound;
    ExitPlace(e, at, State(|e.lines|, at.regs, at.dev, Running));
  }

  lemma AgreesContext(e: Emitter, e': Emitter)
    requires e'.pool == e.pool && e'.frames == e.frames
    ensures forall at :: Agrees(e, at) <==> Agrees(e', at)
  {
    hide Backed;
  }

  // ----- every statement -----

  /**
   * If no raw statement writes a register of `kept`, a statement that runs to its end leaves in each
   * of them that was lent out what was in it, and the residues of all pending verdicts where they
   * were latched.
   */
  lemma {:induction false} StmtPreserves(e: Emitter, s: Stmt, e': Emitter, at: Position, kept: set<nat>)
    requires Tracked(e, kept) && Agrees(e, at) && Remembered(at, kept) && EmitStmt(e, s) == Ok(e')
    requires Keeps(s, kept) && ProcsKeep(e.procs, kept)
    ensures Preserves(e', at, InterpStmt(ContextOf(e), s, at), kept)
    decreases IdleProcs(e), s, 0
  {
    SameInFrame(s);
    hide Tracked, Agrees, Remembered, Preserves, EmitSimple, OpenFrame, CloseFrame, EvalInt, EmitBody, EmitRepeat,
         EmitCall, LegalInFrame, InFrame, InterpSimple, InterpCall, InterpRepeat, EndFrame, ProcsKeep;
    match s
    case Frame(body) => FramePreserves(e, body, e', at, kept);
    case CallProc(name, args) => CallPreserves(e, name, args, e', at, kept);
    case Repeat(count, body) => RepeatPreserves(e, EvalInt(count, e.env).value, body, e', at, kept);
    case _ => SimpleKeeps(e, s, e', at, kept);
  }

  lemma {:induction false} FramePreserves(e: Emitter, body: seq<Stmt>, e': Emitter, at: Position, kept: set<nat>)
    requires Tracked(e, kept) && Agrees(e, at) && Remembered(at, kept) && EmitStmt(e, Frame(body)) == Ok(e')
    requires AllKeep(body, kept) && ProcsKeep(e.procs, kept)
    ensures Preserves(e', at, InterpStmt(ContextOf(e), Frame(body), at), kept)
    decreases IdleProcs(e), body, 1
  {
    hide Tracked, Agrees, OpenFrame, CloseFrame, EmitBody, EndFrame, ProcsKeep, InterpBody, AllKeep, BeginFrame,
         Sound, Step;
    var e1 := OpenFrame(e).value;
    assert IdleProcs(e1) == IdleProcs(e);
    var e2 := EmitBody(e1, body).value;
    OpenKeeps(e, e1, at, kept);
    OpenTracked(e, e1, kept);
    OpenSound(e, e1, Frame(body));
    BodyTracked(e1, body, e2, kept);
    BodyPreserves(e1, body, e2, BeginFrame(at), kept);
    match InterpBody(ContextOf(e1), body, BeginFrame(at))
    case Next(end) => CloseKeeps(e2, e', end);
    case _ =>
  }

  lemma {:induction false} BodyPreserves(e: Emitter, body: seq<Stmt>, e': Emitter, at: Position, kept: set<nat>)
    requires Tracked(e, kept) && Agrees(e, at) && Remembered(at, kept) && EmitBody(e, body) == Ok(e')
    requires AllKeep(body, kept) && ProcsKeep(e.procs, kept)
    ensures Preserves(e', at, InterpBody(ContextOf(e), body, at), kept)
    decreases IdleProcs(e), body, 0
  {
    hide Tracked, Step, Agrees, Remembered, EmitStmt, InterpStmt, ProcsKeep, Keeps;
    if body != [] {
      var e1 := EmitStmt(e, body[0]).value;
      assert IdleProcs(e1) == IdleProcs(e);
      StmtTracked(e, body[0], e1, kept);
      StmtPreserves(e, body[0], e1, at, kept);
      match InterpStmt(ContextOf(e), body[0], at)
      case Next(at1) =>
        assert ContextOf(e1) == ContextOf(e);
        BodyPreserves(e1, body[1..], e', at1, kept);
        PreservesTrans(e, e1, e', at, at1, InterpBody(ContextOf(e), body[1..], at1), kept);
      case _ =>
    }
  }

  lemma {:induction false} CallPreserves(e: Emitter, name: string, args: seq<Ast.Arg>, e': Emitter, at: Position,
                                         kept: set<nat>)
    requires Tracked(e, kept) && Agrees(e, at) && Remembered(at, kept) && EmitCall(e, name, args) == Ok(e')
    requires ProcsKeep(e.procs, kept)
    ensures Preserves(e', at, InterpCall(ContextOf(e), name, args, at), kept)
    decreases IdleProcs(e), args, 0
  {
    hide Tracked, Step, Agrees, EmitBody, BindArgs, InterpBody, AllKeep, ExitExpansion, EnterExpansion, Enter, Leave,
         Sound;
    var p := e.procs[name];
    var bindings := BindArgs(name, p.params, args, e.env).value;
    var e1 := EnterExpansion(e).value;
    EnterTracked(e, e1, kept);
    EnteredOnly(e, e1);
    EnterAgrees(e, e1, at, kept);
    var e2 := Inlined(e1, name, bindings);
    TrackedContext(e1, e2, kept);
    AgreesContext(e1, e2);
    assert name in IdleProcs(e) && name !in IdleProcs(e2) && IdleProcs(e2) < IdleProcs(e);
    var e3 := EmitBody(e2, p.body).value;
    BodyTracked(e2, p.body, e3, kept);
    var at1 := at.(pool := Enter(at.pool));
    BodyPreserves(e2, p.body, e3, at1, kept);
    match InterpBody(ContextOf(e2), p.body, at1)
    case Next(end) =>
      var e4 := e3.(env := e.env, active := e.active);
      SameSound(e3, e4);
      AgreesContext(e3, e4);
      LeaveAgrees(e4, end);
    case _ =>
  }

  lemma {:induction false} RepeatPreserves(e: Emitter, n: nat, body: seq<Stmt>, e': Emitter, at: Position,
                                           kept: set<nat>)
    requires Tracked(e, kept) && Agrees(e, at) && Remembered(at, kept) && EmitRepeat(e, n, body) == Ok(e')
    requires AllKeep(body, kept) && ProcsKeep(e.procs, kept)
    ensures Preserves(e', at, InterpRepeat(ContextOf(e), n, body, at), kept)
    decreases IdleProcs(e), body, 1, n
  {
    hide Tracked, Step, Agrees, EmitBody, InterpBody, AllKeep, ExitExpansion, EnterExpansion, Enter, Leave, Sound,
         ProcsKeep;
    if n > 0 {
      var e1 := EnterExpansion(e).value;
      EnterTracked(e, e1, kept);
      EnteredOnly(e, e1);
      EnterAgrees(e, e1, at, kept);
      assert IdleProcs(e1) == IdleProcs(e) && ContextOf(e1) == ContextOf(e);
      var e2 := EmitBody(e1, body).value;
      BodyTracked(e1, body, e2, kept);
      var at1 := at.(pool := Enter(at.pool));
      BodyPreserves(e1, body, e2, at1, kept);
      var e3 := ExitExpansion(e2);
      ExitTracked(e, e1, e2, e3, kept);
      assert IdleProcs(e3) == IdleProcs(e);
      match InterpBody(ContextOf(e), body, at1)
      case Next(end) =>
        LeaveAgrees(e2, end);
        assert ContextOf(e3) == ContextOf(e);
        RepeatPreserves(e3, n - 1, body, e', Leave(end), kept);
        PreservesTrans(e, e3, e', at, Leave(end), InterpRepeat(ContextOf(e), n - 1, body, Leave(end)), kept);
      case _ =>
    }
  }

  // ----- names -----

  /** A name that `recv` binds stands for a register that holds the byte received. */
  lemma ReceivedByName(at: Position, name: string)
    ensures match ReceiveOne(at, Some(name))
            case Next(at') =>
              && at.dev.rx != [] && name in at'.pool.bindings
              && at'.pool.bindings[name] < 16 && at'.regs[at'.pool.bindings[name]] == at.dev.rx[0]
            case _ => true
  {
    hide Alloc, Received;
  }

  lemma LoggedByte(dev: Device)
    requires dev.rx != []
    ensures var d := Received(dev); d.rx == dev.rx[1..] && d.log == dev.log + [Got(dev.rx[0])]
  {
    hide C.Update;
  }

  /** The response register ends with the last byte received, which is not WAIT_STATE. */
  lemma {:induction false} PollReceives(at: Position, resp: Leased, k: Leased)
    requires resp != k
    ensures match PollInto(at, resp, k)
            case Next(end) =>
              && end.regs[resp] < 256 && end.regs[resp] != WAIT_STATE_CODE
              && end.dev.log != [] && end.dev.log[|end.dev.log| - 1] == Got(end.regs[resp])
            case _ => true
    decreases |at.dev.rx|
  {
    hide Received;
    var dev := at.dev.(crc := 0);
    if dev.rx != [] {
      LoggedByte(dev);
      var regs := Write(Write(at.regs, resp, dev.rx[0]), k, WAIT_STATE_CODE);
      assert regs[resp] == dev.rx[0];
      if dev.rx[0] == WAIT_STATE_CODE {
        PollReceives(at.(dev := Received(dev), regs := regs), resp, k);
      }
    }
  }

  lemma PollLease(p: LivePool, name: string)
    requires BindName(p, name).Some? && Alloc(BindName(p, name).value.pool).Some?
    ensures var resp := BindName(p, name).value;
            var k := Alloc(resp.pool).value;
            && k.reg != resp.reg
            && name in Free(k.pool, k.reg).bindings && Free(k.pool, k.reg).bindings[name] == resp.reg
  {
    hide LowestFree, Without;
  }

  /** A name that `wait_state` binds stands for the last byte received, which is not WAIT_STATE. */
  lemma PolledByName(at: Position, name: string)
    ensures match Poll(at, Some(name))
            case Next(at') =>
              && name in at'.pool.bindings && at'.pool.bindings[name] < 16
              && (var v := at'.regs[at'.pool.bindings[name]];
                  && v < 256 && v != WAIT_STATE_CODE
                  && at'.dev.log != [] && at'.dev.log[|at'.dev.log| - 1] == Got(v))
            case _ => true
  {
    hide BindName, Alloc, PollInto, Free;
    if BindName(at.pool, name).Some? && Alloc(BindName(at.pool, name).value.pool).Some? {
      var resp := BindName(at.pool, name).value;
      PollLease(at.pool, name);
      PollReceives(at, resp.reg, Alloc(resp.pool).value.reg);
    }
  }

  /**
   * As long as its scope is open a name stands for the same register, and the register holds the
   * same value: through any statements that do not bind the name again, and any proc they call.
   */
  lemma NamedValueStays(e: Emitter, body: seq<Stmt>, e': Emitter, at: Position, name: string, kept: set<nat>)
    requires Tracked(e, kept) && Agrees(e, at) && Remembered(at, kept) && EmitBody(e, body) == Ok(e')
    requires AllKeep(body, kept) && ProcsKeep(e.procs, kept)
    requires name in at.pool.bindings && at.pool.bindings[name] in kept
    requires name !in BodyReach(ContextOf(e), body).names
    ensures at.pool.bindings[name] < 16
    ensures match InterpBody(ContextOf(e), body, at)
            case Next(end) =>
              && name in end.pool.bindings && end.pool.bindings[name] == at.pool.bindings[name]
              && end.regs[at.pool.bindings[name]] == at.regs[at.pool.bindings[name]]
            case _ => true
  {
    hide Tracked, Step, EmitBody, InterpBody, AllKeep, ProcsKeep, BodyReach, Backed, Remembered, Named, Accounted;
    TrackedParts(e, kept);
    NamedBusy(e.pool, Pending(e), name);
    BodyPreserves(e, body, e', at, kept);
    BodyBinds(e, body, e');
  }
}
