/** The emitted lines do what the interpreter says the test does. */
module Correct {
  import opened Prelude
  import opened Text
  import opened Isa
  import opened Machine
  import opened Asm
  import opened Encoder
  import opened Assembler
  import opened LabelMachine
  import opened EmittedLines
  import opened Ast
  import opened ConstEval
  import opened Registers
  import opened Emit
  import opened Interp
  import opened Labels
  import opened Verdicts
  import Lexer
  import P = Printer
  import C = Crc8

  // ----- raw statements -----

  predicate InstrWrites(i: Straight, r: nat) {
    if IsData(i) then i.rd % 16 == r else
    match i
    case GetByte(rd) => rd % 16 == r
    case GetBits(rd, _) => rd % 16 == r
    case GetAlert(rd) => rd % 16 == r
    case WaitOn(rd, _, _) => rd % 16 == r
    case Rdsr(rd, _) => rd % 16 == r
    case _ => false
  }

  /** A raw statement that does not branch, and writes no register in `kept`. */
  predicate RawKeeps(mnemonic: string, operands: seq<Operand>, kept: set<nat>) {
    match Resolve(mnemonic, operands, map[])
    case Err(_) => true
    case Ok(Plain(i)) => forall r :: r in kept ==> !InstrWrites(i, r)
    case Ok(LoadConst(rd, _)) => rd % 16 !in kept
    case Ok(Jump(_, _, _, _)) => false
  }

  /** So are all raw statements of `s`. */
  predicate Keeps(s: Stmt, kept: set<nat>) {
    match s
    case Raw(mnemonic, operands) => RawKeeps(mnemonic, P.ReadAll(operands), kept)
    case Frame(body) => forall t :: t in body ==> Keeps(t, kept)
    case Repeat(_, body) => forall t :: t in body ==> Keeps(t, kept)
    case _ => true
  }

  predicate AllKeep(body: seq<Stmt>, kept: set<nat>) { forall t :: t in body ==> Keeps(t, kept) }

  predicate ProcsKeep(procs: map<string, ProcDef>, kept: set<nat>) {
    forall name :: name in procs ==> AllKeep(procs[name].body, kept)
  }

  // ----- the relation between emitter, interpreter and machine -----

  /** The verdicts the emitter has deferred are those the interpreter remembers. */
  ghost predicate Backed(pending: seq<Deferred>, verdicts: seq<Verdict>) {
    && |pending| == |verdicts|
    && forall i :: 0 <= i < |pending| ==> pending[i].reg == verdicts[i].reg && pending[i].code == verdicts[i].code
  }

  /** Both have lent the same registers. */
  ghost predicate Agrees(e: Emitter, at: Position) { e.pool == at.pool && Backed(Pending(e), at.verdicts) }

  /** The machine stands at the next line to be emitted, in the interpreter's position. */
  ghost predicate At(e: Emitter, at: Position, m: State): (b: bool)
    ensures b ==> m.dev == at.dev && m.status == Running
  {
    Agrees(e, at) && m == State(|e.lines|, at.regs, at.dev, Running)
  }

  /** What the machine must show for an outcome of the interpreter. */
  ghost predicate Shows(e: Emitter, out: Outcome, m: State) {
    match out
    case Next(at) => At(e, at, m)
    case Stop(dev, status) => m.dev == dev && m.status == status != Running
    case Fault => false
  }

  function ContextOf(e: Emitter): Context { Context(e.procs, e.env, e.active, e.frames != []) }

  // ----- the program around the emitted lines -----

  ghost predicate HasTrailer(lines: seq<Line>, t: Trailer, k: nat) {
    k + 1 < |lines| && lines[k] == Label(t.target) && lines[k + 1] == HaltLine(t.code)
  }

  ghost predicate HasTrailers(lines: seq<Line>, trailers: seq<Trailer>) {
    forall t :: t in trailers ==> exists k :: HasTrailer(lines, t, k)
  }

  /** `lines` continues what has been emitted so far and contains every trailer hoisted so far. */
  ghost predicate Within(e: Emitter, lines: seq<Line>) {
    && Prefix(e.lines, lines) && HasTrailers(lines, e.trailers)
    && UniqueLabels(lines) && Equs(lines) == map[]
  }

  lemma WithinEarlier(e: Emitter, e': Emitter, lines: seq<Line>)
    requires SameContext(e, e') && Within(e', lines)
    ensures Within(e, lines)
  {
    hide Equs;
    assert e.lines == lines[..|e.lines|];
    forall t | t in e.trailers ensures t in e'.trailers {
      var i :| 0 <= i < |e.trailers| && e.trailers[i] == t;
      assert e'.trailers[i] == t;
    }
  }

  lemma LabelAtLine(lines: seq<Line>, name: string, k: nat)
    requires UniqueLabels(lines) && k < |lines| && lines[k] == Label(name)
    ensures FindLabel(lines, name, 0) == k
  {
    var j := FindLabel(lines, name, 0);
    assert j <= k;
  }

  // ----- single steps -----

  /** One machine step over an instruction line. */
  lemma StepOp(lines: seq<Line>, m: State, mnemonic: string, operands: seq<Operand>)
    requires Equs(lines) == map[] && m.status == Running
    requires 0 <= m.pc < |lines| && lines[m.pc] == Op(mnemonic, operands)
    ensures RunLines(lines, 1, m)
         == if Resolve(mnemonic, operands, map[]).Ok?
            then ExecMeaning(lines, m, Resolve(mnemonic, operands, map[]).value)
            else m.(status := Undefined)
  {
    hide Equs, Resolve, ExecMeaning;
    assert RunLines(lines, 1, m) == RunLines(lines, 0, StepLine(lines, m));
  }

  lemma RunZero(lines: seq<Line>, m: State)
    ensures RunLines(lines, 0, m) == m
  {
  }

  lemma StepLabel(lines: seq<Line>, m: State)
    requires m.status == Running && 0 <= m.pc < |lines| && !lines[m.pc].Op?
    ensures RunLines(lines, 1, m) == m.(pc := m.pc + 1)
  {
    assert RunLines(lines, 1, m) == RunLines(lines, 0, StepLine(lines, m));
  }

  lemma RunPlain(lines: seq<Line>, m: State, mnemonic: string, operands: seq<Operand>, i: Straight)
    requires Equs(lines) == map[] && m.status == Running
    requires 0 <= m.pc < |lines| && lines[m.pc] == Op(mnemonic, operands)
    requires Resolve(mnemonic, operands, map[]) == Ok(Plain(i))
    ensures RunLines(lines, 1, m) == After(m, Exec(i, m.regs, m.dev))
  {
    hide Equs, Resolve, Exec, RunLines;
    StepOp(lines, m, mnemonic, operands);
  }

  lemma RunJump(lines: seq<Line>, m: State, mnemonic: string, operands: seq<Operand>,
                op: BranchOp, a: Reg, b: Reg, target: string)
    requires Equs(lines) == map[] && m.status == Running
    requires 0 <= m.pc < |lines| && lines[m.pc] == Op(mnemonic, operands)
    requires Resolve(mnemonic, operands, map[]) == Ok(Jump(op, a, b, target))
    ensures RunLines(lines, 1, m)
         == m.(pc := if Taken(op, Read(m.regs, a), Read(m.regs, b)) then FindLabel(lines, target, 0) else m.pc + 1)
  {
    hide Equs, Resolve, Exec, RunLines, Taken, Read, FindLabel, Write;
    StepOp(lines, m, mnemonic, operands);
  }

  /** The line after those of `e` is the one appended next. */
  lemma NextLine(e: Emitter, e': Emitter, line: Line, lines: seq<Line>)
    requires e.Valid() && e' == e.(lines := e.lines + [line], asm := e'.asm) && Within(e', lines)
    ensures |e.lines| < |lines| && lines[|e.lines|] == line
    ensures |e'.lines| == |e.lines| + 1
    ensures Within(e, lines)
  {
    hide Equs, HasTrailers, UniqueLabels;
    PrefixTrans(e.lines, e'.lines, lines);
    assert e'.lines[|e.lines|] == line;
    assert lines[..|e'.lines|][|e.lines|] == line;
  }

  // ----- sending -----

  lemma PutStep(e: Emitter, b: byte, e': Emitter, lines: seq<Line>, at: Position, m: State)
    requires Sound(e) && Push(e, PutLine(b)) == Ok(e') && Within(e', lines) && At(e, at, m)
    ensures At(e', at.(dev := Logged(at.dev, Put(b))), RunLines(lines, 1, m))
  {
    hide Equs, RegName, Resolve, RunLines;
    NextLine(e, e', PutLine(b), lines);
    PutResolves(b);
    RunPlain(lines, m, "put_byte", [Num(b)], PutByteImm(b));
  }

  lemma PutFirst(dev: Device, bytes: seq<byte>)
    ensures bytes == [] ==> PutAll(dev, bytes) == dev
    ensures bytes != [] ==> PutAll(dev, bytes) == PutAll(Logged(dev, Put(bytes[0])), bytes[1..])
  {
    if bytes == [] {
      assert PutAll(dev, bytes).log == dev.log;
    } else {
      assert PutAll(dev, bytes).log == PutAll(Logged(dev, Put(bytes[0])), bytes[1..]).log;
    }
  }

  lemma PutJoin(dev: Device, a: seq<byte>, b: seq<byte>)
    ensures PutAll(dev, a + b) == PutAll(PutAll(dev, a), b)
  {
    assert PutAll(dev, a + b).log == PutAll(PutAll(dev, a), b).log;
  }

  /** Sending one after the other is sending all of it. */
  lemma {:induction false} SendsAre(sends: seq<Expr>, env: Env, so: Sending)
    ensures SendEach(sends, env, so)
         == match EvalSends(sends, env)
            case Err(_) => None
            case Ok(b) => Some(Sending(PutAll(so.dev, b), so.bytes + b))
    decreases |sends|
  {
    hide EvalBytes, PutAll;
    if sends == [] {
      PutFirst(so.dev, []);
      assert so.bytes + [] == so.bytes;
    } else if EvalBytes(sends[0], env).Ok? {
      var b := EvalBytes(sends[0], env).value;
      SendsAre(sends[1..], env, Sending(PutAll(so.dev, b), so.bytes + b));
      if EvalSends(sends[1..], env).Ok? {
        var rest := EvalSends(sends[1..], env).value;
        PutJoin(so.dev, b, rest);
        Assoc(so.bytes, b, rest);
      }
    }
  }

  lemma RegionIs(sends: seq<Expr>, env: Env, dev: Device)
    ensures SendRegion(sends, env, dev)
         == match EvalSends(sends, env) case Err(_) => None case Ok(b) => Some(PutAll(dev, b + [C.Crc8(b)]))
  {
    hide SendEach, EvalSends, C.Crc8;
    SendsAre(sends, env, Sending(dev, []));
    if EvalSends(sends, env).Ok? {
      var b := EvalSends(sends, env).value;
      assert [] + b == b;
      PutJoin(dev, b, [C.Crc8(b)]);
      PutFirst(PutAll(dev, b), [C.Crc8(b)]);
      PutFirst(Logged(PutAll(dev, b), Put(C.Crc8(b))), []);
      assert [C.Crc8(b)][1..] == [];
    }
  }

  lemma {:induction false} PutBytes(e: Emitter, bytes: seq<byte>, e': Emitter, lines: seq<Line>, at: Position, m: State)
    returns (n: nat)
    requires Sound(e) && PushBytes(e, bytes) == Ok(e') && Within(e', lines) && At(e, at, m)
    ensures At(e', at.(dev := PutAll(at.dev, bytes)), RunLines(lines, n, m))
    decreases |bytes|
  {
    hide Push, Within, At, Sound, RunLines, Logged, PutAll;
    n := 0;
    RunZero(lines, m);
    PutFirst(at.dev, bytes);
    if bytes != [] {
      var e1 := Push(e, PutLine(bytes[0])).value;
      WithinEarlier(e1, e', lines);
      PushSound(e, PutLine(bytes[0]), e1);
      PutStep(e, bytes[0], e1, lines, at, m);
      var at1 := at.(dev := Logged(at.dev, Put(bytes[0])));
      var k := PutBytes(e1, bytes[1..], e', lines, at1, RunLines(lines, 1, m));
      n := 1 + k;
      RunLinesAdds(lines, 1, k, m);
    }
  }

  // ----- receiving -----

  lemma RecvOneStep(e: Emitter, target: RecvTarget, e': Emitter, lines: seq<Line>, at: Position, m: State)
    requires Sound(e) && RecvOne(e, target) == Ok(e') && Within(e', lines) && At(e, at, m)
    ensures Within(e, lines)
    ensures Shows(e', ReceiveOne(at, NameOf(target)), RunLines(lines, 1, m))
  {
    hide Equs, RunLines, Lend, Received, Resolve, RegName, UniqueLabels, HasTrailers, Free;
    var t := TakeReg(e, NameOf(target)).value;
    var e0 := e.(pool := t.pool);
    var e1 := Push(e0, GetLine(t.reg)).value;
    WithinEarlier(e1, e', lines);
    NextLine(e0, e1, GetLine(t.reg), lines);
    GetResolves(t.reg);
    RunPlain(lines, m, "get_byte", [Emit.Reg(t.reg)], GetByte(t.reg));
  }

  lemma {:induction false} RecvAllSteps(e: Emitter, targets: seq<RecvTarget>, e': Emitter, lines: seq<Line>,
                                        at: Position, m: State) returns (n: nat)
    requires Sound(e) && RecvAll(e, targets) == Ok(e') && Within(e', lines) && At(e, at, m)
    ensures Shows(e', Receive(at, targets), RunLines(lines, n, m))
    decreases |targets|
  {
    hide RecvOne, ReceiveOne, Sound, Within, At, RunLines;
    n := 0;
    RunZero(lines, m);
    if targets != [] {
      var e1 := RecvOne(e, targets[0]).value;
      WithinEarlier(e1, e', lines);
      RecvOneStep(e, targets[0], e1, lines, at, m);
      RecvOneSound(e, targets[0], e1);
      n := 1;
      match ReceiveOne(at, NameOf(targets[0]))
      case Next(at1) =>
        var k := RecvAllSteps(e1, targets[1..], e', lines, at1, RunLines(lines, 1, m));
        n := 1 + k;
        RunLinesAdds(lines, 1, k, m);
      case _ =>
    }
  }

  // ----- polling -----

  /** The five lines of a poll loop, from line `top`. */
  ghost predicate PollCode(lines: seq<Line>, top: nat, loop: string, resp: nat, k: nat) {
    && top + 5 <= |lines|
    && lines[top] == Label(loop)
    && lines[top + 1] == CRC_RESET
    && lines[top + 2] == GetLine(resp)
    && lines[top + 3] == Op("li", [Emit.Reg(k), Num(WAIT_STATE_CODE)])
    && lines[top + 4] == Op("beq", [Emit.Reg(resp), Emit.Reg(k), Ident(loop)])
    && 1 <= resp < 16 && 1 <= k < 16 && resp != k
  }

  /** The label and `crc_reset`. */
  lemma PollFirst(lines: seq<Line>, top: nat, loop: string, resp: nat, k: nat, m: State)
    requires PollCode(lines, top, loop, resp, k) && Equs(lines) == map[]
    requires m.status == Running && m.pc == top
    ensures RunLines(lines, 2, m) == m.(pc := top + 2, dev := m.dev.(crc := 0))
  {
    hide Equs, RegName, Resolve, RunLines;
    StepLabel(lines, m);
    var m1 := RunLines(lines, 1, m);
    PinsResolve();
    RunPlain(lines, m1, "crc_reset", [], CrcReset);
    RunLinesAdds(lines, 1, 1, m);
  }

  lemma PollGet(lines: seq<Line>, top: nat, loop: string, resp: nat, k: nat, m: State)
    requires PollCode(lines, top, loop, resp, k) && Equs(lines) == map[]
    requires m.status == Running && m.pc == top + 2
    ensures var m' := RunLines(lines, 1, m);
            if m.dev.rx == [] then m'.dev == m.dev && m'.status == Starved
            else m' == State(top + 3, Write(m.regs, resp, m.dev.rx[0]), Received(m.dev), Running)
  {
    hide Equs, RegName, Resolve, RunLines, Received;
    GetResolves(resp);
    RunPlain(lines, m, "get_byte", [Emit.Reg(resp)], GetByte(resp));
  }

  lemma PollBranch(lines: seq<Line>, top: nat, loop: string, resp: nat, k: nat, m: State)
    requires PollCode(lines, top, loop, resp, k) && Equs(lines) == map[] && UniqueLabels(lines)
    requires m.status == Running && m.pc == top + 3
    ensures RunLines(lines, 2, m) == m.(pc := if m.regs[resp] == WAIT_STATE_CODE then top else top + 5,
                                        regs := Write(m.regs, k, WAIT_STATE_CODE))
  {
    hide Equs, RegName, Resolve, RunLines, UniqueLabels;
    LiResolves(k, WAIT_STATE_CODE);
    StepOp(lines, m, "li", [Emit.Reg(k), Num(WAIT_STATE_CODE)]);
    var m1 := RunLines(lines, 1, m);
    BeqResolves(resp, k, loop);
    RunJump(lines, m1, "beq", [Emit.Reg(resp), Emit.Reg(k), Ident(loop)], Equal, resp, k, loop);
    LabelAtLine(lines, loop, top);
    RunLinesAdds(lines, 1, 1, m);
  }

  lemma {:induction false} PollLoop(lines: seq<Line>, top: nat, loop: string, resp: Leased, k: Leased,
                                    at: Position, m: State) returns (n: nat)
    requires PollCode(lines, top, loop, resp, k) && Equs(lines) == map[] && UniqueLabels(lines)
    requires m == State(top, at.regs, at.dev, Running)
    ensures var m' := RunLines(lines, n, m);
            match PollInto(at, resp, k)
            case Next(end) =>
              && m' == State(top + 5, end.regs, end.dev, Running)
              && end == Position(end.dev, end.regs, at.pool, at.verdicts)
            case Stop(dev, status) => m'.dev == dev && m'.status == status != Running
            case Fault => false
    decreases |at.dev.rx|
  {
    hide Equs, RegName, RunLines, UniqueLabels, PollCode, C.Update;
    assert resp != k && top + 5 <= |lines| by { PollShape(lines, top, loop, resp, k); }
    PollFirst(lines, top, loop, resp, k, m);
    var m1 := RunLines(lines, 2, m);
    PollGet(lines, top, loop, resp, k, m1);
    var m2 := RunLines(lines, 1, m1);
    RunLinesAdds(lines, 2, 1, m);
    n := 3;
    if at.dev.rx != [] {
      PollBranch(lines, top, loop, resp, k, m2);
      RunLinesAdds(lines, 3, 2, m);
      n := 5;
      if at.dev.rx[0] == WAIT_STATE_CODE {
        var at1 := at.(dev := m2.dev, regs := Write(m2.regs, k, WAIT_STATE_CODE));
        var again := PollLoop(lines, top, loop, resp, k, at1, RunLines(lines, 5, m));
        RunLinesAdds(lines, 5, again, m);
        n := 5 + again;
      }
    }
  }

  lemma PollShape(lines: seq<Line>, top: nat, loop: string, resp: nat, k: nat)
    requires PollCode(lines, top, loop, resp, k)
    ensures resp != k && top + 5 <= |lines|
  {
  }

  lemma WaitStateSteps(e: Emitter, bind: Option<string>, e': Emitter, lines: seq<Line>, at: Position, m: State)
    returns (n: nat)
    requires Sound(e) && LowerWaitState(e, bind) == Ok(e') && Within(e', lines) && At(e, at, m)
    ensures Shows(e', Poll(at, bind), RunLines(lines, n, m))
  {
    hide Equs, RegName, RunLines, UniqueLabels, PollInto, HasTrailers, LowerWaitState, PollCode, Sound, Lend, Alloc,
         Free, Prefix;
    var loop, resp, k := WaitStateLayout(e, bind, e', lines);
    n := PollLoop(lines, |e.lines|, loop, resp, k, at, m);
  }

  lemma BlockAt(before: seq<Line>, block: seq<Line>, lines: seq<Line>)
    requires Prefix(before + block, lines)
    ensures |before| + |block| <= |lines|
    ensures forall i :: 0 <= i < |block| ==> lines[|before| + i] == block[i]
  {
    forall i | 0 <= i < |block| ensures lines[|before| + i] == block[i] {
      assert lines[..|before + block|][|before| + i] == block[i];
    }
  }

  lemma PollAgainLines(e: Emitter, loop: string, resp: nat, e': Emitter) returns (k: nat)
    requires e.Valid() && PollAgain(e, loop, resp) == Ok(e')
    ensures Alloc(e.pool).Some? && k == Alloc(e.pool).value.reg && 1 <= k < 16 && !e.pool.busy[k]
    ensures e'.lines == e.lines + [Op("li", [Emit.Reg(k), Num(WAIT_STATE_CODE)]),
                                   Op("beq", [Emit.Reg(resp), Emit.Reg(k), Ident(loop)])]
    ensures e'.pool == Free(Alloc(e.pool).value.pool, k)
  {
    hide Alloc, Free, P.Write;
    k := Alloc(e.pool).value.reg;
  }

  /** Both registers of a poll loop are leased before it starts and settled after it. */
  lemma WaitStateLines(e: Emitter, bind: Option<string>, e': Emitter) returns (loop: string, resp: nat, k: nat)
    requires Sound(e) && LowerWaitState(e, bind) == Ok(e')
    ensures e'.lines == e.lines + [Label(loop), CRC_RESET, GetLine(resp),
                                   Op("li", [Emit.Reg(k), Num(WAIT_STATE_CODE)]),
                                   Op("beq", [Emit.Reg(resp), Emit.Reg(k), Ident(loop)])]
    ensures 1 <= resp < 16 && 1 <= k < 16 && !e.pool.busy[resp] && !e.pool.busy[k] && resp != k
    ensures loop == WaitLabel(e.gensym)
    ensures Lend(e.pool, bind).Some? && Alloc(Lend(e.pool, bind).value.pool).Some?
    ensures resp == Lend(e.pool, bind).value.reg && k == Alloc(Lend(e.pool, bind).value.pool).value.reg
    ensures e'.pool == Settled(Free(Alloc(Lend(e.pool, bind).value.pool).value.pool, k), bind.None?, resp)
  {
    hide Lend, Alloc, Free, PollAgain, P.Write, WaitLabel;
    loop := WaitLabel(e.gensym);
    var e1 := PollStart(e, loop).value;
    var taken := TakeReg(e1, bind).value;
    resp := taken.reg;
    var e2 := Push(e1.(pool := taken.pool), GetLine(resp)).value;
    k := PollAgainLines(e2, loop, resp, PollAgain(e2, loop, resp).value);
  }

  lemma WaitStateLayout(e: Emitter, bind: Option<string>, e': Emitter, lines: seq<Line>)
    returns (loop: string, resp: nat, k: nat)
    requires Sound(e) && LowerWaitState(e, bind) == Ok(e') && Within(e', lines)
    ensures PollCode(lines, |e.lines|, loop, resp, k)
    ensures |e'.lines| == |e.lines| + 5 && e'.frames == e.frames
    ensures Lend(e.pool, bind).Some? && Alloc(Lend(e.pool, bind).value.pool).Some?
    ensures resp == Lend(e.pool, bind).value.reg && k == Alloc(Lend(e.pool, bind).value.pool).value.reg
    ensures e'.pool == Settled(Free(Alloc(Lend(e.pool, bind).value.pool).value.pool, k), bind.None?, resp)
  {
    hide Equs, RegName, UniqueLabels, HasTrailers, LowerWaitState, Lend, Alloc, Free;
    WaitStateSound(e, bind, e');
    loop, resp, k := WaitStateLines(e, bind, e');
    var block := [Label(loop), CRC_RESET, GetLine(resp), Op("li", [Emit.Reg(k), Num(WAIT_STATE_CODE)]),
                  Op("beq", [Emit.Reg(resp), Emit.Reg(k), Ident(loop)])];
    BlockAt(e.lines, block, lines);
    var top := |e.lines|;
    assert lines[top + 0] == block[0] && lines[top + 1] == block[1] && lines[top + 2] == block[2];
    assert lines[top + 3] == block[3] && lines[top + 4] == block[4];
  }

  // ----- verdicts -----

  lemma LatchStep(e: Emitter, code: byte, e': Emitter, lines: seq<Line>, at: Position, m: State)
    requires Sound(e) && e.frames != [] && Latch(e, code) == Ok(e') && Within(e', lines) && At(e, at, m)
    ensures Alloc(at.pool).Some?
    ensures var t := Alloc(at.pool).value;
            At(e', at.(regs := Write(at.regs, t.reg, at.dev.crc), pool := t.pool,
                       verdicts := at.verdicts + [Verdict(t.reg, at.dev.crc, code)]), RunLines(lines, 1, m))
  {
    hide Equs, RunLines, Alloc, Resolve, RegName, UniqueLabels, HasTrailers, FailLabel, Latch, Prefix, Sound;
    LatchShape(e, code, e');
    var t := Alloc(e.pool).value;
    var top, block := |e.lines|, [Op("rdsr", [Emit.Reg(t.reg), Ident("crc")])];
    BlockAt(e.lines, block, lines);
    assert lines[top + 0] == block[0];
    RdsrResolves(t.reg);
    RunPlain(lines, m, "rdsr", [Emit.Reg(t.reg), Ident("crc")], Rdsr(t.reg, 0));
  }

  /** What latching a residue leaves behind. */
  lemma LatchShape(e: Emitter, code: byte, e': Emitter)
    requires Sound(e) && e.frames != [] && Latch(e, code) == Ok(e')
    ensures Alloc(e.pool).Some?
    ensures var t := Alloc(e.pool).value;
            && e'.lines == e.lines + [Op("rdsr", [Emit.Reg(t.reg), Ident("crc")])]
            && Pending(e') == Pending(e) + [Deferred(t.reg, FailLabel(e.gensym), code)] && e'.pool == t.pool
  {
    hide Alloc, RegName, FailLabel, P.Write;
  }

  lemma ExpectSteps(c: Context, e: Emitter, elseCode: Expr, e': Emitter, lines: seq<Line>, at: Position, m: State)
    returns (n: nat)
    requires Sound(e) && LowerExpect(e, elseCode) == Ok(e') && Within(e', lines) && At(e, at, m)
    requires c == ContextOf(e)
    ensures Shows(e', InterpSimple(c, Expect(elseCode), at), RunLines(lines, n, m))
  {
    hide RunLines, RecvOne, Latch, EvalByte, ReceiveOne, Within, At, Alloc, Sound;
    var code := EvalByte(elseCode, e.env).value;
    var e1 := RecvOne(e, Discard).value;
    WithinEarlier(e1, e', lines);
    RecvOneStep(e, Discard, e1, lines, at, m);
    RecvOneSound(e, Discard, e1);
    n := 1;
    match ReceiveOne(at, None)
    case Next(at1) =>
      LatchStep(e1, code, e', lines, at1, RunLines(lines, 1, m));
      RunLinesAdds(lines, 1, 1, m);
      n := 2;
    case _ =>
  }

  /** The lines of an `expect`, and the verdict it leaves. */
  lemma ExpectLines(e: Emitter, elseCode: Expr, e': Emitter) returns (d: Deferred, r: nat)
    requires Sound(e) && LowerExpect(e, elseCode) == Ok(e')
    ensures e.frames != [] && EvalByte(elseCode, e.env) == Ok(d.code)
    ensures e'.lines == e.lines + [GetLine(r), Op("rdsr", [Emit.Reg(d.reg), Ident("crc")])]
    ensures 1 <= r < 16 && !e.pool.busy[r] && 1 <= d.reg < 16 && !e.pool.busy[d.reg]
    ensures Pending(e') == Pending(e) + [d] && d.target == FailLabel(e.gensym)
    ensures e'.gensym == e.gensym + 1 && e'.trailers == e.trailers && |e'.frames| == |e.frames|
  {
    hide Alloc, EvalByte, P.Write;
    var discard := Alloc(e.pool).value;
    r := discard.reg;
    var e1 := Push(e.(pool := discard.pool), GetLine(r)).value;
    var e2 := FreeIf(e1, true, r);
    d := Deferred(Alloc(e2.pool).value.reg, FailLabel(e.gensym), EvalByte(elseCode, e.env).value);
  }

  // ----- raw statements and halts -----

  /** A copied line that does not branch does to the machine what the interpreter does. */
  lemma CopyStep(e: Emitter, mnemonic: Word, operands: seq<Lexeme>, e': Emitter, lines: seq<Line>,
                 at: Position, m: State)
    requires Sound(e) && Copy(e, mnemonic, operands) == Ok(e') && Within(e', lines) && At(e, at, m)
    requires RawKeeps(mnemonic, P.ReadAll(operands), {})
    ensures Shows(e', RawEffect(mnemonic, P.ReadAll(operands), at), RunLines(lines, 1, m))
  {
    hide Equs, RegName, RunLines, Resolve, Exec, InstrWrites, P.ReadAll, UniqueLabels, HasTrailers;
    NextLine(e, e', CopiedLine(mnemonic, operands), lines);
    StepOp(lines, m, mnemonic, P.ReadAll(operands));
  }

  lemma HaltStep(e: Emitter, e': Emitter, lines: seq<Line>, at: Position, m: State)
    requires Sound(e) && Push(e, HaltLine(0)) == Ok(e') && Within(e', lines) && At(e, at, m)
    ensures Shows(e', Stop(at.dev, Halted(0)), RunLines(lines, 1, m))
  {
    hide Equs, RegName, RunLines, Resolve;
    NextLine(e, e', HaltLine(0), lines);
    StepOp(lines, m, "halt", [Num(0)]);
    HaltResolves(0);
  }

  lemma FailStep(e: Emitter, code: Numeral, e': Emitter, lines: seq<Line>, at: Position, m: State)
    requires Sound(e) && Copy(e, HALT, [code]) == Ok(e') && Within(e', lines) && At(e, at, m)
    ensures Shows(e', FailWith(code, at.dev), RunLines(lines, 1, m))
  {
    hide Equs, RegName, RunLines, Resolve, Lexer.ReadOperand, UniqueLabels, HasTrailers;
    NextLine(e, e', CopiedLine(HALT, [code]), lines);
    FailReads(code);
    StepOp(lines, m, "halt", [Lexer.ReadOperand(code)]);
    match Lexer.ReadOperand(code)
    case Num(n) => HaltResolves(n);
    case Ident(name) => HaltNeedsNumber(name);
  }

  lemma FailReads(code: Numeral)
    ensures P.ReadAll([code]) == [Lexer.ReadOperand(code)]
  {
    hide Lexer.ReadOperand;
  }

  lemma HaltNeedsNumber(name: string)
    ensures Resolve("halt", [Ident(name)], map[]) == Err(BadLine)
  {
    hide MnemonicOf;
    HaltName();
  }

  /** `set_config` names no register. */
  lemma ConfigKeeps(operands: seq<Operand>, kept: set<nat>)
    ensures RawKeeps(SET_CONFIG, operands, kept)
  {
    ConfigName();
    hide MnemonicOf, ResolveConfig;
    ConfigPlain(Args(operands, map[]));
  }

  lemma ConfigPlain(a: seq<Actual>)
    ensures ResolveConfig(a).Ok? ==> ResolveConfig(a).value.SetConfig?
  {
    hide RoleBit, IoBits, SckBits, AlertBit;
  }

  // ----- statements without a body -----

  lemma SendSteps(e: Emitter, b: seq<byte>, e': Emitter, lines: seq<Line>, at: Position, m: State) returns (n: nat)
    requires Sound(e) && PushBytes(e, b) == Ok(e') && Within(e', lines) && At(e, at, m)
    ensures Shows(e', Next(at.(dev := PutAll(at.dev, b))), RunLines(lines, n, m))
  {
    hide Within, RunLines, PushBytes;
    n := PutBytes(e, b, e', lines, at, m);
  }

  lemma SimpleSteps(e: Emitter, s: Stmt, e': Emitter, lines: seq<Line>, at: Position, m: State) returns (n: nat)
    requires !s.Frame? && !s.CallProc? && !s.Repeat?
    requires Sound(e) && EmitSimple(e, s) == Ok(e') && Within(e', lines) && At(e, at, m) && Keeps(s, {})
    ensures Shows(e', InterpSimple(ContextOf(e), s, at), RunLines(lines, n, m))
  {
    hide Within, At, Shows, RunLines, Sound, Push, Copy, PushBytes, RecvAll, LowerWaitState, LowerExpect, EvalBytes,
         EvalSends, SendRegion, EvalByte, RawEffect, FailWith, Receive, Poll, RawKeeps, PutAll, P.ReadAll;
    match s
    case Pass => n := 1; HaltStep(e, e', lines, at, m);
    case Fail(code) => n := 1; FailStep(e, code, e', lines, at, m);
    case Raw(mnemonic, operands) => n := 1; CopyStep(e, mnemonic, operands, e', lines, at, m);
    case Send(bytes, appendCrc) =>
      var b := EvalBytes(bytes, e.env).value;
      n := SendSteps(e, if appendCrc then b + [C.Crc8(b)] else b, e', lines, at, m);
    case CrcRegion(sends) =>
      var b := EvalSends(sends, e.env).value;
      RegionIs(sends, e.env, at.dev);
      n := SendSteps(e, b + [C.Crc8(b)], e', lines, at, m);
    case Config(keywords) =>
      n := 1;
      ConfigKeeps(P.ReadAll(keywords), {});
      CopyStep(e, SET_CONFIG, keywords, e', lines, at, m);
    case Recv(targets) => n := RecvAllSteps(e, targets, e', lines, at, m);
    case WaitState(bind) => n := WaitStateSteps(e, bind, e', lines, at, m);
    case Expect(elseCode) => n := ExpectSteps(ContextOf(e), e, elseCode, e', lines, at, m);
  }

  // ----- frames -----

  lemma OpenSteps(e: Emitter, e': Emitter, lines: seq<Line>, at: Position, m: State)
    requires Sound(e) && OpenFrame(e) == Ok(e') && Within(e', lines) && At(e, at, m)
    ensures At(e', BeginFrame(at), RunLines(lines, 1, m))
  {
    hide Equs, RegName, RunLines, Resolve, Enter;
    var e1 := Push(e, CS_ASSERT).value;
    NextLine(e, e1, CS_ASSERT, lines);
    PinsResolve();
    RunPlain(lines, m, "cs_assert", [], CsAssert);
  }

  lemma HaltAtTrailer(lines: seq<Line>, t: Trailer, k: nat, m: State)
    requires Equs(lines) == map[] && HasTrailer(lines, t, k) && m.status == Running && m.pc == k
    ensures RunLines(lines, 2, m).status == Halted(t.code) && RunLines(lines, 2, m).dev == m.dev
  {
    hide Equs, RegName, RunLines, Resolve;
    StepLabel(lines, m);
    HaltResolves(t.code);
    StepOp(lines, RunLines(lines, 1, m), "halt", [Num(t.code)]);
    RunLinesAdds(lines, 1, 1, m);
  }

  /** A taken verdict branch reaches the trailer and halts there. */
  lemma TakenVerdict(lines: seq<Line>, d: Deferred, k: nat, m: State)
    requires Equs(lines) == map[] && UniqueLabels(lines) && HasTrailer(lines, Trailer(d.target, d.code), k)
    requires m.status == Running && 0 <= m.pc < |lines| && lines[m.pc] == BnezLine(d) && 1 <= d.reg < 16
    requires m.regs[d.reg] != 0
    ensures RunLines(lines, 3, m).status == Halted(d.code) && RunLines(lines, 3, m).dev == m.dev
  {
    hide Equs, RegName, RunLines, Resolve, UniqueLabels, HasTrailer, FindLabel;
    BnezResolves(d.reg, d.target);
    RunJump(lines, m, "bnez", [Emit.Reg(d.reg), Ident(d.target)], NotEqual, d.reg, 0, d.target);
    TrailerLabel(lines, d, k);
    HaltAtTrailer(lines, Trailer(d.target, d.code), k, RunLines(lines, 1, m));
    RunLinesAdds(lines, 1, 2, m);
  }

  lemma TrailerLabel(lines: seq<Line>, d: Deferred, k: nat)
    requires UniqueLabels(lines) && HasTrailer(lines, Trailer(d.target, d.code), k)
    ensures FindLabel(lines, d.target, 0) == k
  {
    hide UniqueLabels;
    LabelAtLine(lines, d.target, k);
  }

  lemma PassedVerdict(lines: seq<Line>, d: Deferred, m: State)
    requires Equs(lines) == map[]
    requires m.status == Running && 0 <= m.pc < |lines| && lines[m.pc] == BnezLine(d) && 1 <= d.reg < 16
    requires m.regs[d.reg] == 0
    ensures RunLines(lines, 1, m) == m.(pc := m.pc + 1)
  {
    hide Equs, RegName, RunLines, Resolve, FindLabel;
    BnezResolves(d.reg, d.target);
    RunJump(lines, m, "bnez", [Emit.Reg(d.reg), Ident(d.target)], NotEqual, d.reg, 0, d.target);
  }

  /** The first nonzero residue decides; if there is none the machine falls through. */
  lemma {:induction false} VerdictSteps(e: Emitter, deferred: seq<Deferred>, e': Emitter, lines: seq<Line>,
                                        verdicts: seq<Verdict>, m: State) returns (n: nat)
    requires e.Valid() && PushVerdicts(e, deferred) == Ok(e') && Within(e', lines)
    requires m.status == Running && m.pc == |e.lines| && Backed(deferred, verdicts)
    ensures var m' := RunLines(lines, n, m);
            match FirstFailing(verdicts, m.regs)
            case None => m' == m.(pc := |e'.lines|)
            case Some(code) => m'.status == Halted(code) && m'.dev == m.dev
    decreases |deferred|
  {
    hide Equs, RegName, RunLines, UniqueLabels, HasTrailers;
    if deferred == [] {
      n := 0;
      RunZero(lines, m);
    } else {
      var d := deferred[0];
      assert verdicts[0].reg == d.reg;
      var e1 := Push(e, BnezLine(d)).value;
      var e2 := e1.(trailers := e1.trailers + [Trailer(d.target, d.code)]);
      WithinEarlier(e2, e', lines);
      NextVerdict(e, d, lines);
      if m.regs[d.reg] != 0 {
        var k := TrailerPlace(e2, Trailer(d.target, d.code), lines);
        TakenVerdict(lines, d, k, m);
        n := 3;
      } else {
        PassedVerdict(lines, d, m);
        assert Backed(deferred[1..], verdicts[1..]);
        var more := VerdictSteps(e2, deferred[1..], e', lines, verdicts[1..], RunLines(lines, 1, m));
        RunLinesAdds(lines, 1, more, m);
        n := 1 + more;
      }
    }
  }

  lemma NextVerdict(e: Emitter, d: Deferred, lines: seq<Line>)
    requires e.Valid() && Push(e, BnezLine(d)).Ok?
    requires Within(Push(e, BnezLine(d)).value.(trailers := e.trailers + [Trailer(d.target, d.code)]), lines)
    ensures |e.lines| < |lines| && lines[|e.lines|] == BnezLine(d)
  {
    hide Equs, RegName, UniqueLabels, HasTrailers;
    BlockAt(e.lines, [BnezLine(d)], lines);
    assert lines[|e.lines| + 0] == BnezLine(d);
  }

  lemma TrailerPlace(e: Emitter, t: Trailer, lines: seq<Line>) returns (k: nat)
    requires Within(e, lines) && t in e.trailers
    ensures HasTrailer(lines, t, k)
  {
    hide Equs, RegName, UniqueLabels, HasTrailer;
    k :| HasTrailer(lines, t, k);
  }

  lemma CsHighStep(e: Emitter, e1: Emitter, lines: seq<Line>, m: State)
    requires e.Valid() && Push(e, CS_DEASSERT) == Ok(e1) && Within(e1, lines)
    requires m.status == Running && m.pc == |e.lines|
    ensures RunLines(lines, 1, m) == m.(pc := |e1.lines|, dev := CloseBus(m.dev))
  {
    hide Equs, RegName, RunLines, Resolve, UniqueLabels, HasTrailers;
    NextLine(e, e1, CS_DEASSERT, lines);
    PinsResolve();
    RunPlain(lines, m, "cs_deassert", [], CsDeassert);
  }

  lemma CloseSteps(e: Emitter, e': Emitter, lines: seq<Line>, at: Position, m: State) returns (n: nat)
    requires Sound(e) && |e.frames| == 1 && CloseFrame(e) == Ok(e') && Within(e', lines) && At(e, at, m)
    ensures Shows(e', EndFrame([], at), RunLines(lines, n, m))
  {
    hide Equs, RegName, RunLines, UniqueLabels, HasTrailers, PushVerdicts, FirstFailing, CloseBus, Exit;
    var deferred := e.frames[0];
    var e1 := Push(e.(frames := []), CS_DEASSERT).value;
    var e2 := PushVerdicts(e1, deferred).value;
    WithinEarlier(e1, e2, lines);
    CsHighStep(e.(frames := []), e1, lines, m);
    var more := VerdictSteps(e1, deferred, e2, lines, at.verdicts, RunLines(lines, 1, m));
    RunLinesAdds(lines, 1, more, m);
    n := 1 + more;
    VerdictsSound(e1, deferred, e2);
  }

  // ----- every statement -----

  lemma SameInFrame(s: Stmt)
    ensures LegalInFrame(s) <==> InFrame(s)
  {
  }

  lemma {:induction false} StmtSteps(e: Emitter, s: Stmt, e': Emitter, lines: seq<Line>, at: Position, m: State)
    returns (n: nat)
    requires Sound(e) && EmitStmt(e, s) == Ok(e') && Within(e', lines) && At(e, at, m)
    requires Keeps(s, {}) && ProcsKeep(e.procs, {})
    ensures Shows(e', InterpStmt(ContextOf(e), s, at), RunLines(lines, n, m))
    decreases IdleProcs(e), s, 0
  {
    SameInFrame(s);
    hide Within, At, RunLines, EmitSimple, OpenFrame, CloseFrame, EvalInt, EmitBody, EmitRepeat, EmitCall,
         LegalInFrame, InFrame, InterpSimple, InterpCall, InterpRepeat, EndFrame, ProcsKeep;
    match s
    case Frame(body) => n := FrameSteps(e, body, e', lines, at, m);
    case CallProc(name, args) => n := CallSteps(e, name, args, e', lines, at, m);
    case Repeat(count, body) => n := RepeatSteps(e, EvalInt(count, e.env).value, body, e', lines, at, m);
    case _ => n := SimpleSteps(e, s, e', lines, at, m);
  }

  lemma {:induction false} FrameSteps(e: Emitter, body: seq<Stmt>, e': Emitter, lines: seq<Line>, at: Position, m: State)
    returns (n: nat)
    requires Sound(e) && EmitStmt(e, Frame(body)) == Ok(e') && Within(e', lines) && At(e, at, m)
    requires AllKeep(body, {}) && ProcsKeep(e.procs, {})
    ensures Shows(e', InterpStmt(ContextOf(e), Frame(body), at), RunLines(lines, n, m))
    decreases IdleProcs(e), body, 1
  {
    hide RunLines, OpenFrame, CloseFrame, EmitBody, EndFrame, ProcsKeep, HasTrailers, UniqueLabels, Equs, InterpBody,
         AllKeep, BeginFrame;
    var e1 := OpenFrame(e).value;
    assert IdleProcs(e1) == IdleProcs(e);
    var e2 := EmitBody(e1, body).value;
    OpenSound(e, e1, Frame(body));
    BodySound(e1, body, e2);
    ClosedWithin(e2, e', lines);
    OpenedWithin(e1, e2, lines);
    OpenSteps(e, e1, lines, at, m);
    var m1 := RunLines(lines, 1, m);
    var k := BodySteps(e1, body, e2, lines, BeginFrame(at), m1);
    var m2 := RunLines(lines, k, m1);
    RunLinesAdds(lines, 1, k, m);
    n := 1 + k;
    match InterpBody(ContextOf(e1), body, BeginFrame(at))
    case Next(end) =>
      var j := CloseSteps(e2, e', lines, end, m2);
      RunLinesAdds(lines, 1 + k, j, m);
      n := 1 + k + j;
    case _ =>
  }

  lemma ClosedWithin(e: Emitter, e': Emitter, lines: seq<Line>)
    requires e.Valid() && e.frames != [] && CloseFrame(e) == Ok(e') && Within(e', lines)
    ensures Within(e, lines)
  {
    hide Equs, RegName, UniqueLabels, HasTrailers, CloseFrame;
    WithinEarlier(e.(frames := e'.frames), e', lines);
  }

  lemma OpenedWithin(e: Emitter, e': Emitter, lines: seq<Line>)
    requires SameContext(e, e') && Within(e', lines)
    ensures Within(e, lines)
  {
    WithinEarlier(e, e', lines);
  }

  lemma {:induction false} BodySteps(e: Emitter, body: seq<Stmt>, e': Emitter, lines: seq<Line>, at: Position, m: State)
    returns (n: nat)
    requires Sound(e) && EmitBody(e, body) == Ok(e') && Within(e', lines) && At(e, at, m)
    requires AllKeep(body, {}) && ProcsKeep(e.procs, {})
    ensures Shows(e', InterpBody(ContextOf(e), body, at), RunLines(lines, n, m))
    decreases IdleProcs(e), body, 0
  {
    hide Within, At, RunLines, EmitStmt, InterpStmt, ProcsKeep, Sound, Keeps;
    n := 0;
    RunZero(lines, m);
    if body != [] {
      var e1 := EmitStmt(e, body[0]).value;
      assert IdleProcs(e1) == IdleProcs(e);
      WithinEarlier(e1, e', lines);
      StmtSound(e, body[0], e1);
      n := StmtSteps(e, body[0], e1, lines, at, m);
      match InterpStmt(ContextOf(e), body[0], at)
      case Next(at1) =>
        var k := BodySteps(e1, body[1..], e', lines, at1, RunLines(lines, n, m));
        RunLinesAdds(lines, n, k, m);
        n := n + k;
      case _ =>
    }
  }

  lemma {:induction false} CallSteps(e: Emitter, name: string, args: seq<Ast.Arg>, e': Emitter, lines: seq<Line>,
                                     at: Position, m: State) returns (n: nat)
    requires Sound(e) && EmitCall(e, name, args) == Ok(e') && Within(e', lines) && At(e, at, m)
    requires ProcsKeep(e.procs, {})
    ensures Shows(e', InterpCall(ContextOf(e), name, args, at), RunLines(lines, n, m))
    decreases IdleProcs(e), args, 0
  {
    hide RunLines, EmitBody, BindArgs, Within, At, InterpBody, AllKeep, ExitExpansion, EnterExpansion, Sound, Enter,
         Leave;
    var p := e.procs[name];
    var bindings := BindArgs(name, p.params, args, e.env).value;
    var e1 := EnterExpansion(e).value;
    EnterKeeps(e, e1);
    EnterPlace(e, e1, at, m);
    var e2 := Inlined(e1, name, bindings);
    assert name in IdleProcs(e) && name !in IdleProcs(e2) && IdleProcs(e2) < IdleProcs(e);
    SamePlace(e1, e2, lines);
    var e3 := EmitBody(e2, p.body).value;
    var e4 := e3.(env := e.env, active := e.active);
    ExitKeeps(e4);
    SamePlace(e3, e', lines);
    var at1 := at.(pool := Enter(at.pool));
    n := BodySteps(e2, p.body, e3, lines, at1, m);
    match InterpBody(ContextOf(e2), p.body, at1)
    case Next(end) =>
      BodySound(e2, p.body, e3);
      SameSound(e3, e4);
      SamePlace(e3, e4, lines);
      ExitPlace(e4, end, RunLines(lines, n, m));
    case _ =>
  }

  lemma SameSound(e1: Emitter, e2: Emitter)
    requires Sound(e1) && e2 == e1.(env := e2.env, active := e2.active)
    ensures Sound(e2)
  {
  }

  /** The environment, the call chain and the expansion count do not move the machine. */
  lemma SamePlace(e1: Emitter, e2: Emitter, lines: seq<Line>)
    requires e1.lines == e2.lines && e1.frames == e2.frames && e1.trailers == e2.trailers
    ensures Within(e1, lines) <==> Within(e2, lines)
    ensures e1.pool == e2.pool ==> forall at, m :: At(e1, at, m) <==> At(e2, at, m)
  {
    hide Equs, RegName, UniqueLabels, HasTrailers, Backed;
  }

  lemma EnterKeeps(e: Emitter, e': Emitter)
    requires Sound(e) && EnterExpansion(e) == Ok(e')
    ensures e' == e.(expansions := e'.expansions, pool := Enter(e.pool)) && Sound(e')
    ensures forall name, bindings :: Sound(Inlined(e', name, bindings))
  {
  }

  lemma EnterPlace(e: Emitter, e': Emitter, at: Position, m: State)
    requires Sound(e) && EnterExpansion(e) == Ok(e') && At(e, at, m)
    ensures At(e', at.(pool := Enter(at.pool)), m)
  {
    hide Enter, Backed;
  }

  lemma ExitKeeps(e: Emitter)
    requires e.Valid()
    ensures ExitExpansion(e) == e.(pool := ExitExpansion(e).pool)
  {
  }

  lemma {:induction false} ReserveAllRetain(p: LivePool, deferred: seq<Deferred>, verdicts: seq<Verdict>)
    requires Backed(deferred, verdicts)
    requires forall d :: d in deferred ==> 1 <= d.reg < NUM_REGS
    ensures ReserveAll(p, deferred) == Retain(p, verdicts)
    decreases |deferred|
  {
    hide Reserve;
    if deferred != [] {
      assert deferred[0].reg == verdicts[0].reg;
      ReserveAllRetain(Reserve(p, deferred[0].reg), deferred[1..], verdicts[1..]);
    }
  }

  lemma ExitPlace(e: Emitter, at: Position, m: State)
    requires Sound(e) && At(e, at, m)
    ensures At(ExitExpansion(e), Leave(at), m)
  {
    hide Exit, ReserveAll, Retain, Reserve;
    ReserveAllRetain(Exit(e.pool), Pending(e), at.verdicts);
    if e.frames == [] {
      NothingRetained(Exit(e.pool));
    }
  }

  lemma NothingRetained(p: LivePool)
    ensures Retain(p, []) == p
  {
  }

  lemma {:induction false} RepeatSteps(e: Emitter, n: nat, body: seq<Stmt>, e': Emitter, lines: seq<Line>,
                                       at: Position, m: State) returns (steps: nat)
    requires Sound(e) && EmitRepeat(e, n, body) == Ok(e') && Within(e', lines) && At(e, at, m)
    requires AllKeep(body, {}) && ProcsKeep(e.procs, {})
    ensures Shows(e', InterpRepeat(ContextOf(e), n, body, at), RunLines(lines, steps, m))
    decreases IdleProcs(e), body, 1, n
  {
    hide RunLines, EmitBody, Within, At, InterpBody, AllKeep, ExitExpansion, EnterExpansion, ProcsKeep, Sound, Enter,
         Leave;
    steps := 0;
    RunZero(lines, m);
    if n > 0 {
      var e1 := EnterExpansion(e).value;
      EnterKeeps(e, e1);
      EnterPlace(e, e1, at, m);
      assert IdleProcs(e1) == IdleProcs(e);
      var e2 := EmitBody(e1, body).value;
      BodySound(e1, body, e2);
      SoundFrames(e2);
      ExitSound(e2);
      ExitKeeps(e2);
      var e3 := ExitExpansion(e2);
      assert IdleProcs(e3) == IdleProcs(e);
      WithinEarlier(e3, e', lines);
      SamePlace(e2, e3, lines);
      var at1 := at.(pool := Enter(at.pool));
      steps := BodySteps(e1, body, e2, lines, at1, m);
      match InterpBody(ContextOf(e), body, at1)
      case Next(end) =>
        ExitPlace(e2, end, RunLines(lines, steps, m));
        var k := RepeatSteps(e3, n - 1, body, e', lines, Leave(end), RunLines(lines, steps, m));
        RunLinesAdds(lines, steps, k, m);
        steps := steps + k;
      case _ =>
    }
  }

  lemma SoundFrames(e: Emitter)
    requires Sound(e)
    ensures |e.frames| <= 1
  {
  }
}
