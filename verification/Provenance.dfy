/** Which lines of an emitted program are the compiler's own and which are copied from the source. */
module Provenance {
  import opened Prelude
  import opened Text
  import opened Asm
  import opened Encoder
  import opened EmittedLines
  import opened Ast
  import opened ConstEval
  import opened Registers
  import opened Emit
  import opened Interp
  import opened Verdicts
  import opened Correct
  import opened Extent
  import opened Printer
  import Lexer
  import Listing
  import C = Crc8

  function LineOf(q: Quote): Line { CopiedLine(q.mnemonic, q.operands) }

  function TextIn(q: Quote): Written { CopiedText(q.mnemonic, q.operands) }

  /** A line that can be read back from its text, and means something. */
  predicate Clear(line: Line) { Printable(line) && Resolves(line) }

  /** A line of the compiler's own. */
  ghost predicate Made(line: Line, w: Written) { w == Write(line, true) && Clear(line) }

  ghost predicate Quoted(line: Line, w: Written, q: Quote) { line == LineOf(q) && w == TextIn(q) }

  ghost predicate Traced(line: Line, w: Written, quotes: set<Quote>) {
    Made(line, w) || exists q :: q in quotes && Quoted(line, w, q)
  }

  ghost predicate Occurs(lines: seq<Line>, asm: seq<Written>, q: Quote) {
    exists k :: 0 <= k < |lines| && k < |asm| && Quoted(lines[k], asm[k], q)
  }

  ghost predicate AllTraced(lines: seq<Line>, asm: seq<Written>, quotes: set<Quote>) {
    && |lines| == |asm|
    && (forall k :: 0 <= k < |lines| ==> Traced(lines[k], asm[k], quotes))
    && (forall q :: q in quotes ==> Occurs(lines, asm, q))
  }

  // ----- the lines the compiler makes -----

  lemma RegPrintable(n: nat)
    ensures Spellable(Emit.Reg(n))
  {
    Listing.RegSpellable(n);
    assert Emit.Reg(n) == Listing.R(n);
  }

  lemma MadeIdents()
    ensures IsIdent("put_byte") && IsIdent("get_byte") && IsIdent("halt") && IsIdent("li")
    ensures IsIdent("cs_assert") && IsIdent("cs_deassert") && IsIdent("crc_reset")
  {
  }

  lemma MoreIdents()
    ensures IsIdent("rdsr") && IsIdent("crc") && IsIdent("beq") && IsIdent("bnez")
    ensures IsIdent("set_config") && IsIdent("_start") && IsLexeme("globl")
  {
  }

  lemma LabelIdents(n: nat)
    ensures IsIdent(WaitLabel(n)) && IsIdent(FailLabel(n))
  {
    hide Dec;
    Lexer.DecDigits(n);
    AfterPrefix("__wait", Dec(n));
    AfterPrefix("__fail", Dec(n));
  }

  lemma AfterPrefix(front: string, digits: string)
    requires IsIdent(front) && forall k :: 0 <= k < |digits| ==> IsDigit(digits[k])
    ensures IsIdent(front + digits)
  {
  }

  lemma SimpleLines(b: byte, code: byte, reg: nat)
    requires reg < 16
    ensures Clear(PutLine(b)) && Clear(HaltLine(code)) && Clear(GetLine(reg))
    ensures Clear(CS_ASSERT) && Clear(CS_DEASSERT) && Clear(CRC_RESET)
  {
    hide RegName, IsIdent, Resolve;
    MadeIdents();
    RegPrintable(reg);
    PutResolves(b);
    HaltResolves(code);
    GetResolves(reg);
    PinsResolve();
  }

  lemma JumpLines(resp: nat, k: nat, n: nat, reg: nat)
    requires resp < 16 && k < 16 && reg < 16
    ensures Clear(Label(WaitLabel(n))) && Clear(Label(FailLabel(n)))
    ensures Clear(Op("li", [Emit.Reg(k), Num(WAIT_STATE_CODE)]))
    ensures Clear(Op("beq", [Emit.Reg(resp), Emit.Reg(k), Ident(WaitLabel(n))]))
    ensures Clear(Op("rdsr", [Emit.Reg(reg), Ident("crc")]))
  {
    hide RegName, IsIdent, WaitLabel, FailLabel, Resolve;
    LiResolves(k, WAIT_STATE_CODE);
    BeqResolves(resp, k, WaitLabel(n));
    RdsrResolves(reg);
    MadeIdents();
    MoreIdents();
    LabelIdents(n);
    RegPrintable(resp);
    RegPrintable(k);
    RegPrintable(reg);
  }

  /** The verdict branch and the trailer of a label the compiler made. */
  ghost predicate MadeLabels(e: Emitter) {
    && (forall d :: d in Pending(e) ==> IsIdent(d.target))
    && (forall t :: t in e.trailers ==> IsIdent(t.target))
  }

  /** What is emitted comes from the compiler or is one of `quotes`, each of which is there. */
  ghost predicate Sourced(e: Emitter, quotes: set<Quote>) { AllTraced(e.lines, e.asm, quotes) && MadeLabels(e) }

  // ----- every lowering step -----

  lemma AppendMade(lines: seq<Line>, asm: seq<Written>, quotes: set<Quote>, line: Line)
    requires AllTraced(lines, asm, quotes) && Clear(line)
    ensures AllTraced(lines + [line], asm + [Write(line, true)], quotes)
  {
    hide Clear, Write, Quoted;
    OccursStill(lines, asm, line, Write(line, true));
  }

  lemma OccursStill(lines: seq<Line>, asm: seq<Written>, line: Line, w: Written)
    requires |lines| == |asm|
    ensures forall q :: Occurs(lines, asm, q) ==> Occurs(lines + [line], asm + [w], q)
  {
    hide Quoted;
    forall q | Occurs(lines, asm, q) ensures Occurs(lines + [line], asm + [w], q) {
      var k :| 0 <= k < |lines| && k < |asm| && Quoted(lines[k], asm[k], q);
      assert (lines + [line])[k] == lines[k] && (asm + [w])[k] == asm[k];
    }
  }

  lemma AppendQuoted(lines: seq<Line>, asm: seq<Written>, quotes: set<Quote>, q: Quote)
    requires AllTraced(lines, asm, quotes)
    ensures AllTraced(lines + [LineOf(q)], asm + [TextIn(q)], quotes + {q})
  {
    hide Made, LineOf, TextIn;
    var lines', asm' := lines + [LineOf(q)], asm + [TextIn(q)];
    OccursStill(lines, asm, LineOf(q), TextIn(q));
    assert Quoted(lines'[|lines|], asm'[|lines|], q);
    forall k | 0 <= k < |lines'| ensures Traced(lines'[k], asm'[k], quotes + {q}) {
      if k < |lines| {
        assert Traced(lines[k], asm[k], quotes);
      }
    }
  }

  lemma PushSourced(e: Emitter, line: Line, e': Emitter, quotes: set<Quote>)
    requires e.Valid() && Sourced(e, quotes) && Clear(line) && Push(e, line) == Ok(e')
    ensures Sourced(e', quotes)
  {
    hide Clear, IsIdent, AllTraced, Write;
    AppendMade(e.lines, e.asm, quotes, line);
  }

  lemma CopySourced(e: Emitter, q: Quote, e': Emitter, quotes: set<Quote>)
    requires e.Valid() && Sourced(e, quotes) && Copy(e, q.mnemonic, q.operands) == Ok(e')
    ensures Sourced(e', quotes + {q})
  {
    hide IsIdent, AllTraced, ReadAll;
    AppendQuoted(e.lines, e.asm, quotes, q);
  }

  lemma SameSourced(e: Emitter, e': Emitter, quotes: set<Quote>)
    requires Sourced(e, quotes)
    requires e'.lines == e.lines && e'.asm == e.asm && e'.frames == e.frames && e'.trailers == e.trailers
    ensures Sourced(e', quotes)
  {
    hide AllTraced, IsIdent;
  }

  lemma {:induction false} PutSourced(e: Emitter, bytes: seq<byte>, e': Emitter, quotes: set<Quote>)
    requires e.Valid() && Sourced(e, quotes) && PushBytes(e, bytes) == Ok(e')
    ensures Sourced(e', quotes)
    decreases |bytes|
  {
    hide Sourced, Push, Clear;
    if bytes != [] {
      var e1 := Push(e, PutLine(bytes[0])).value;
      SimpleLines(bytes[0], 0, 0);
      PushSourced(e, PutLine(bytes[0]), e1, quotes);
      PutSourced(e1, bytes[1..], e', quotes);
    }
  }

  lemma RecvOneSourced(e: Emitter, target: RecvTarget, e': Emitter, quotes: set<Quote>)
    requires e.Valid() && Sourced(e, quotes) && RecvOne(e, target) == Ok(e')
    ensures Sourced(e', quotes)
  {
    hide Sourced, TakeReg, Push, Free, Clear;
    var t := TakeReg(e, NameOf(target)).value;
    SameSourced(e, e.(pool := t.pool), quotes);
    var e1 := Push(e.(pool := t.pool), GetLine(t.reg)).value;
    SimpleLines(0, 0, t.reg);
    PushSourced(e.(pool := t.pool), GetLine(t.reg), e1, quotes);
    SameSourced(e1, e', quotes);
  }

  lemma {:induction false} RecvAllSourced(e: Emitter, targets: seq<RecvTarget>, e': Emitter, quotes: set<Quote>)
    requires e.Valid() && Sourced(e, quotes) && RecvAll(e, targets) == Ok(e')
    ensures Sourced(e', quotes)
    decreases |targets|
  {
    hide Sourced, RecvOne;
    if targets != [] {
      var e1 := RecvOne(e, targets[0]).value;
      RecvOneSourced(e, targets[0], e1, quotes);
      RecvAllSourced(e1, targets[1..], e', quotes);
    }
  }

  lemma PollStartSourced(e: Emitter, e': Emitter, quotes: set<Quote>)
    requires e.Valid() && Sourced(e, quotes) && PollStart(e, WaitLabel(e.gensym)) == Ok(e')
    ensures Sourced(e', quotes)
  {
    hide Sourced, Push, Clear, WaitLabel;
    var loop := WaitLabel(e.gensym);
    var e0 := e.(gensym := e.gensym + 1);
    SameSourced(e, e0, quotes);
    JumpLines(0, 0, e.gensym, 0);
    SimpleLines(0, 0, 0);
    var e1 := Push(e0, Label(loop)).value;
    PushSourced(e0, Label(loop), e1, quotes);
    PushSourced(e1, CRC_RESET, e', quotes);
  }

  lemma PollAgainSourced(e: Emitter, n: nat, resp: nat, e': Emitter, quotes: set<Quote>)
    requires e.Valid() && Sourced(e, quotes) && resp < 16 && PollAgain(e, WaitLabel(n), resp) == Ok(e')
    ensures Sourced(e', quotes)
  {
    hide Sourced, Push, Clear, WaitLabel, Alloc, Free;
    var k := Alloc(e.pool).value;
    SameSourced(e, e.(pool := k.pool), quotes);
    JumpLines(resp, k.reg, n, 0);
    var li := Op("li", [Emit.Reg(k.reg), Num(WAIT_STATE_CODE)]);
    var beq := Op("beq", [Emit.Reg(resp), Emit.Reg(k.reg), Ident(WaitLabel(n))]);
    var e1 := Push(e.(pool := k.pool), li).value;
    PushSourced(e.(pool := k.pool), li, e1, quotes);
    var e2 := Push(e1, beq).value;
    PushSourced(e1, beq, e2, quotes);
    SameSourced(e2, e', quotes);
  }

  lemma WaitStateSourced(e: Emitter, bind: Option<string>, e': Emitter, quotes: set<Quote>)
    requires e.Valid() && Sourced(e, quotes) && LowerWaitState(e, bind) == Ok(e')
    ensures Sourced(e', quotes)
  {
    hide Sourced, Push, Clear, WaitLabel, TakeReg, PollStart, PollAgain, Free;
    var loop := WaitLabel(e.gensym);
    var e1 := PollStart(e, loop).value;
    PollStartSourced(e, e1, quotes);
    var resp := TakeReg(e1, bind).value;
    SameSourced(e1, e1.(pool := resp.pool), quotes);
    SimpleLines(0, 0, resp.reg);
    var e2 := Push(e1.(pool := resp.pool), GetLine(resp.reg)).value;
    PushSourced(e1.(pool := resp.pool), GetLine(resp.reg), e2, quotes);
    var e3 := PollAgain(e2, loop, resp.reg).value;
    PollAgainSourced(e2, e.gensym, resp.reg, e3, quotes);
    SameSourced(e3, e', quotes);
  }

  lemma DeferSourced(e: Emitter, d: Deferred, quotes: set<Quote>)
    requires e.Valid() && Sourced(e, quotes) && e.frames != [] && 1 <= d.reg < NUM_REGS && IsIdent(d.target)
    ensures Sourced(Defer(e, d), quotes)
  {
    hide AllTraced, IsIdent;
  }

  lemma LatchSourced(e: Emitter, code: byte, e': Emitter, quotes: set<Quote>)
    requires e.Valid() && Sourced(e, quotes) && e.frames != [] && Latch(e, code) == Ok(e')
    ensures Sourced(e', quotes)
  {
    hide Sourced, Push, Clear, FailLabel, Alloc, Defer, IsIdent;
    var res := Alloc(e.pool).value;
    SameSourced(e, e.(pool := res.pool), quotes);
    JumpLines(0, 0, 0, res.reg);
    var rdsr := Op("rdsr", [Emit.Reg(res.reg), Ident("crc")]);
    var e1 := Push(e.(pool := res.pool), rdsr).value;
    PushSourced(e.(pool := res.pool), rdsr, e1, quotes);
    var e2 := e1.(gensym := e1.gensym + 1);
    SameSourced(e1, e2, quotes);
    LabelIdents(e1.gensym);
    DeferSourced(e2, Deferred(res.reg, FailLabel(e1.gensym), code), quotes);
  }

  lemma SimpleSourced(e: Emitter, s: Stmt, e': Emitter, quotes: set<Quote>)
    requires !s.Frame? && !s.CallProc? && !s.Repeat?
    requires e.Valid() && Sourced(e, quotes) && EmitSimple(e, s) == Ok(e')
    ensures Sourced(e', quotes + SimpleReach(s).quotes)
  {
    assert quotes + {} == quotes;
    hide Sourced, Push, Copy, Clear, PushBytes, RecvAll, LowerWaitState, RecvOne, Latch, EvalBytes, EvalByte, EvalSends;
    match s
    case Pass => SimpleLines(0, 0, 0); PushSourced(e, HaltLine(0), e', quotes);
    case Fail(code) => CopySourced(e, Quote(HALT, [code]), e', quotes);
    case Raw(mnemonic, operands) => CopySourced(e, Quote(mnemonic, operands), e', quotes);
    case Config(keywords) => CopySourced(e, Quote(SET_CONFIG, keywords), e', quotes);
    case Send(bytes, appendCrc) =>
      var b := EvalBytes(bytes, e.env).value;
      PutSourced(e, if appendCrc then b + [C.Crc8(b)] else b, e', quotes);
    case CrcRegion(sends) =>
      var b := EvalSends(sends, e.env).value;
      PutSourced(e, b + [C.Crc8(b)], e', quotes);
    case Recv(targets) => RecvAllSourced(e, targets, e', quotes);
    case WaitState(bind) => WaitStateSourced(e, bind, e', quotes);
    case Expect(elseCode) =>
      var e1 := RecvOne(e, Discard).value;
      RecvOneSourced(e, Discard, e1, quotes);
      LatchSourced(e1, EvalByte(elseCode, e.env).value, e', quotes);
  }

  // ----- frames and expansions -----

  lemma OpenSourced(e: Emitter, e': Emitter, quotes: set<Quote>)
    requires e.Valid() && Sourced(e, quotes) && OpenFrame(e) == Ok(e')
    ensures Sourced(e', quotes)
  {
    hide Clear, IsIdent, Write, AllTraced, Enter;
    SimpleLines(0, 0, 0);
    AppendMade(e.lines, e.asm, quotes, CS_ASSERT);
  }

  lemma {:induction false} VerdictsSourced(e: Emitter, deferred: seq<Deferred>, e': Emitter, quotes: set<Quote>)
    requires e.Valid() && Sourced(e, quotes) && PushVerdicts(e, deferred) == Ok(e')
    requires forall d :: d in deferred ==> IsIdent(d.target) && d.reg < 16
    ensures Sourced(e', quotes)
    decreases |deferred|
  {
    hide Push, Clear, BnezLine, AllTraced, IsIdent;
    if deferred != [] {
      var d := deferred[0];
      assert d in deferred;
      var e1 := Push(e, BnezLine(d)).value;
      BnezClear(d);
      PushSourced(e, BnezLine(d), e1, quotes);
      var e2 := e1.(trailers := e1.trailers + [Trailer(d.target, d.code)]);
      assert Pending(e2) == Pending(e1);
      VerdictsSourced(e2, deferred[1..], e', quotes);
    }
  }

  lemma BnezClear(d: Deferred)
    requires IsIdent(d.target) && d.reg < 16
    ensures Clear(BnezLine(d))
  {
    hide RegName, IsIdent, Resolve;
    BnezResolves(d.reg, d.target);
    MoreIdents();
    RegPrintable(d.reg);
  }

  lemma CloseSourced(e: Emitter, e': Emitter, quotes: set<Quote>)
    requires e.Valid() && Sourced(e, quotes) && |e.frames| == 1 && CloseFrame(e) == Ok(e')
    ensures Sourced(e', quotes)
  {
    hide PushVerdicts, Exit, Clear, Push, AllTraced, IsIdent;
    var e0 := e.(frames := e.frames[..0]);
    SimpleLines(0, 0, 0);
    var e1 := Push(e0, CS_DEASSERT).value;
    PushSourced(e0, CS_DEASSERT, e1, quotes);
    var e2 := PushVerdicts(e1, e.frames[0]).value;
    VerdictsSourced(e1, e.frames[0], e2, quotes);
    assert Pending(e') == Pending(e2);
  }

  // ----- every statement -----

  lemma {:induction false} StmtSourced(e: Emitter, s: Stmt, e': Emitter, quotes: set<Quote>)
    requires Sound(e) && Sourced(e, quotes) && EmitStmt(e, s) == Ok(e')
    ensures Sourced(e', quotes + StmtReach(ContextOf(e), s).quotes)
    decreases IdleProcs(e), s, 0
  {
    hide Sourced, Sound, EmitSimple, OpenFrame, CloseFrame, EvalInt, EmitBody, EmitRepeat, EmitCall, BodyReach,
         CallReach, SimpleReach, LegalInFrame;
    match s
    case Frame(body) =>
      var e1 := OpenFrame(e).value;
      assert IdleProcs(e1) == IdleProcs(e);
      OpenSound(e, e1, s);
      OpenSourced(e, e1, quotes);
      var e2 := EmitBody(e1, body).value;
      BodySound(e1, body, e2);
      BodySourced(e1, body, e2, quotes);
      assert ContextOf(e1) == ContextOf(e).(inFrame := true);
      SoundFrames(e2);
      CloseSourced(e2, e', quotes + BodyReach(ContextOf(e1), body).quotes);
    case CallProc(name, args) => CallSourced(e, name, args, e', quotes);
    case Repeat(count, body) => RepeatSourced(e, EvalInt(count, e.env).value, body, e', quotes);
    case _ => SimpleSourced(e, s, e', quotes);
  }

  lemma {:induction false} BodySourced(e: Emitter, body: seq<Stmt>, e': Emitter, quotes: set<Quote>)
    requires Sound(e) && Sourced(e, quotes) && EmitBody(e, body) == Ok(e')
    ensures Sourced(e', quotes + BodyReach(ContextOf(e), body).quotes)
    decreases IdleProcs(e), body, 0
  {
    hide Sourced, Sound, EmitStmt, StmtReach;
    if body == [] {
      assert quotes + {} == quotes;
    } else {
      var e1 := EmitStmt(e, body[0]).value;
      StmtSound(e, body[0], e1);
      StmtSourced(e, body[0], e1, quotes);
      assert IdleProcs(e1) == IdleProcs(e);
      assert ContextOf(e1) == ContextOf(e);
      var first, rest := StmtReach(ContextOf(e), body[0]).quotes, BodyReach(ContextOf(e), body[1..]).quotes;
      BodySourced(e1, body[1..], e', quotes + first);
      assert quotes + first + rest == quotes + (first + rest);
    }
  }

  lemma {:induction false} CallSourced(e: Emitter, name: string, args: seq<Arg>, e': Emitter, quotes: set<Quote>)
    requires Sound(e) && Sourced(e, quotes) && EmitCall(e, name, args) == Ok(e')
    ensures Sourced(e', quotes + CallReach(ContextOf(e), name, args).quotes)
    decreases IdleProcs(e), args, 0
  {
    hide Sourced, EmitBody, BindArgs, ReserveAll, Exit, BodyReach, Enter;
    var p := e.procs[name];
    var bindings := BindArgs(name, p.params, args, e.env).value;
    var e1 := EnterExpansion(e).value;
    EnterKeeps(e, e1);
    var e2 := Inlined(e1, name, bindings);
    assert name in IdleProcs(e) && name !in IdleProcs(e2) && IdleProcs(e2) < IdleProcs(e);
    SameSourced(e, e2, quotes);
    var e3 := EmitBody(e2, p.body).value;
    BodySourced(e2, p.body, e3, quotes);
    SameSourced(e3, e', quotes + BodyReach(ContextOf(e2), p.body).quotes);
  }

  lemma {:induction false} RepeatSourced(e: Emitter, n: nat, body: seq<Stmt>, e': Emitter, quotes: set<Quote>)
    requires Sound(e) && Sourced(e, quotes) && EmitRepeat(e, n, body) == Ok(e')
    ensures Sourced(e', quotes + (if n == 0 then {} else BodyReach(ContextOf(e), body).quotes))
    decreases IdleProcs(e), body, 1, n
  {
    hide Sourced, EmitBody, ReserveAll, Exit, BodyReach, Enter;
    var more := BodyReach(ContextOf(e), body).quotes;
    assert quotes + {} == quotes && quotes + more + more == quotes + more && quotes + more + {} == quotes + more;
    if n > 0 {
      var e1 := EnterExpansion(e).value;
      EnterKeeps(e, e1);
      assert IdleProcs(e1) == IdleProcs(e);
      SameSourced(e, e1, quotes);
      var e2 := EmitBody(e1, body).value;
      BodySound(e1, body, e2);
      BodySourced(e1, body, e2, quotes);
      var e3 := ExitExpansion(e2);
      ExitSound(e2);
      assert ContextOf(e1) == ContextOf(e) && ContextOf(e3) == ContextOf(e);
      SameSourced(e2, e3, quotes + more);
      assert IdleProcs(e3) == IdleProcs(e);
      RepeatSourced(e3, n - 1, body, e', quotes + more);
    }
  }
}
