/** The two whole-program budgets only ever turn a success into an error. */
module Budget {
  import opened Prelude
  import opened Text
  import opened Asm
  import opened Ast
  import opened ConstEval
  import opened Registers
  import opened Emit
  import P = Printer
  import opened Driver
  import C = Crc8

  /** The same emitter with no budget to keep. */
  function Free(e: Emitter): Emitter { e.(budgeted := false) }

  predicate Fits(e: Emitter) { |e.lines| <= MAX_EMITTED_LINES && e.expansions <= MAX_EXPANSIONS }

  /** `r` succeeds exactly when `u` succeeds within the budgets, and then with the same result. */
  predicate Refines(r: Emitted, u: Emitted) {
    && (r.Ok? <==> u.Ok? && Fits(u.value))
    && (r.Ok? ==> r.value.budgeted && u.value == Free(r.value))
  }

  /** A place where the budgets are enforced and have not been exceeded. */
  predicate Within(e: Emitter) { e.Valid() && e.budgeted && Fits(e) }

  /** Once over a budget, always over it. */
  lemma Overrun(e: Emitter, e': Emitter)
    requires SameContext(e, e') && Fits(e')
    ensures Fits(e)
  {
  }

  lemma AppendRefines(e: Emitter, line: Line, text: P.Written)
    requires Within(e)
    ensures Refines(Append(e, line, text), Append(Free(e), line, text))
  {
  }

  lemma PushRefines(e: Emitter, line: Line)
    requires Within(e)
    ensures Refines(Push(e, line), Push(Free(e), line))
  {
    hide Refines, Append;
    AppendRefines(e, line, P.Write(line, true));
  }

  lemma CopyRefines(e: Emitter, mnemonic: Word, operands: seq<Lexeme>)
    requires Within(e)
    ensures Refines(Copy(e, mnemonic, operands), Copy(Free(e), mnemonic, operands))
  {
    hide Refines, Append, CopiedLine;
    AppendRefines(e, CopiedLine(mnemonic, operands), CopiedText(mnemonic, operands));
  }

  lemma {:induction false} PutRefines(e: Emitter, bytes: seq<byte>)
    requires Within(e)
    ensures Refines(PushBytes(e, bytes), PushBytes(Free(e), bytes))
    decreases |bytes|
  {
    if bytes != [] {
      PushRefines(e, PutLine(bytes[0]));
      if Push(e, PutLine(bytes[0])).Ok? {
        PutRefines(Push(e, PutLine(bytes[0])).value, bytes[1..]);
      }
    }
  }

  lemma RecvOneRefines(e: Emitter, target: RecvTarget)
    requires Within(e)
    ensures Refines(RecvOne(e, target), RecvOne(Free(e), target))
  {
    hide Alloc, BindName, Registers.Free, GetLine;
  }

  lemma {:induction false} RecvAllRefines(e: Emitter, targets: seq<RecvTarget>)
    requires Within(e)
    ensures Refines(RecvAll(e, targets), RecvAll(Free(e), targets))
    decreases |targets|
  {
    hide RecvOne;
    if targets != [] {
      RecvOneRefines(e, targets[0]);
      if RecvOne(e, targets[0]).Ok? {
        RecvAllRefines(RecvOne(e, targets[0]).value, targets[1..]);
      }
    }
  }

  lemma PollStartRefines(e: Emitter, loop: string)
    requires Within(e)
    ensures Refines(PollStart(e, loop), PollStart(Free(e), loop))
  {
  }

  lemma PollAgainRefines(e: Emitter, loop: string, resp: nat)
    requires Within(e)
    ensures Refines(PollAgain(e, loop, resp), PollAgain(Free(e), loop, resp))
  {
    hide Alloc, Registers.Free;
  }

  lemma WaitStateRefines(e: Emitter, bind: Option<string>)
    requires Within(e)
    ensures Refines(LowerWaitState(e, bind), LowerWaitState(Free(e), bind))
  {
    hide TakeReg, PollStart, PollAgain, Registers.Free, WaitLabel, GetLine, Push;
    var loop := WaitLabel(e.gensym);
    PollStartRefines(e, loop);
    if PollStart(e, loop).Ok? {
      var e1 := PollStart(e, loop).value;
      SameLease(e1, bind);
      if TakeReg(e1, bind).Some? {
        var resp := TakeReg(e1, bind).value;
        var e2 := e1.(pool := resp.pool);
        PushRefines(e2, GetLine(resp.reg));
        if Push(e2, GetLine(resp.reg)).Ok? {
          PollAgainRefines(Push(e2, GetLine(resp.reg)).value, loop, resp.reg);
        }
      }
    }
  }

  lemma SameLease(e: Emitter, name: Option<string>)
    requires e.Valid()
    ensures TakeReg(Free(e), name) == TakeReg(e, name)
  {
  }

  lemma ExpectRefines(e: Emitter, elseCode: Expr)
    requires Within(e)
    ensures Refines(LowerExpect(e, elseCode), LowerExpect(Free(e), elseCode))
  {
    hide Alloc, Registers.Free, EvalByte, GetLine, FailLabel;
  }

  lemma SimpleRefines(e: Emitter, s: Stmt)
    requires Within(e) && !s.Frame? && !s.CallProc? && !s.Repeat?
    ensures Refines(EmitSimple(e, s), EmitSimple(Free(e), s))
  {
    hide Refines, Push, Copy, PushBytes, RecvAll, LowerWaitState, LowerExpect, EvalBytes, EvalSends;
    match s
    case Pass => PushRefines(e, HaltLine(0));
    case Fail(code) => CopyRefines(e, HALT, [code]);
    case Raw(mnemonic, operands) => CopyRefines(e, mnemonic, operands);
    case Config(keywords) => CopyRefines(e, SET_CONFIG, keywords);
    case Send(bytes, appendCrc) => SendRefines(e, bytes, appendCrc);
    case CrcRegion(sends) => RegionRefines(e, sends);
    case Recv(targets) => RecvAllRefines(e, targets);
    case WaitState(bind) => WaitStateRefines(e, bind);
    case Expect(elseCode) => ExpectRefines(e, elseCode);
  }

  lemma SendRefines(e: Emitter, bytes: Expr, appendCrc: bool)
    requires Within(e)
    ensures Refines(EmitSimple(e, Send(bytes, appendCrc)), EmitSimple(Free(e), Send(bytes, appendCrc)))
  {
    hide PushBytes, EvalBytes;
    if EvalBytes(bytes, e.env).Ok? {
      var b := EvalBytes(bytes, e.env).value;
      PutRefines(e, if appendCrc then b + [C.Crc8(b)] else b);
    }
  }

  lemma RegionRefines(e: Emitter, sends: seq<Expr>)
    requires Within(e)
    ensures Refines(EmitSimple(e, CrcRegion(sends)), EmitSimple(Free(e), CrcRegion(sends)))
  {
    hide PushBytes, EvalSends;
    if EvalSends(sends, e.env).Ok? {
      var b := EvalSends(sends, e.env).value;
      PutRefines(e, b + [C.Crc8(b)]);
    }
  }

  // ----- frames and expansions -----

  lemma OpenRefines(e: Emitter)
    requires Within(e)
    ensures Refines(OpenFrame(e), OpenFrame(Free(e)))
  {
  }

  lemma {:induction false} VerdictsRefine(e: Emitter, deferred: seq<Deferred>)
    requires Within(e)
    ensures Refines(PushVerdicts(e, deferred), PushVerdicts(Free(e), deferred))
    decreases |deferred|
  {
    hide BnezLine;
    if deferred != [] {
      var d := deferred[0];
      PushRefines(e, BnezLine(d));
      if Push(e, BnezLine(d)).Ok? {
        var e1 := Push(e, BnezLine(d)).value;
        VerdictsRefine(e1.(trailers := e1.trailers + [Trailer(d.target, d.code)]), deferred[1..]);
      }
    }
  }

  lemma CloseRefines(e: Emitter)
    requires Within(e) && e.frames != []
    ensures Refines(CloseFrame(e), CloseFrame(Free(e)))
  {
    hide PushVerdicts, Exit;
    var top := |e.frames| - 1;
    var e0 := e.(frames := e.frames[..top]);
    PushRefines(e0, CS_DEASSERT);
    if Push(e0, CS_DEASSERT).Ok? {
      VerdictsRefine(Push(e0, CS_DEASSERT).value, e.frames[top]);
    }
  }

  lemma EnterRefines(e: Emitter)
    requires Within(e)
    ensures Refines(EnterExpansion(e), EnterExpansion(Free(e)))
  {
  }

  lemma ExitRefines(e: Emitter)
    requires Within(e)
    ensures ExitExpansion(Free(e)) == Free(ExitExpansion(e)) && Within(ExitExpansion(e))
  {
    hide Exit, ReserveAll;
  }

  // ----- every statement -----

  lemma {:induction false} StmtRefines(e: Emitter, s: Stmt)
    requires Within(e)
    ensures Refines(EmitStmt(e, s), EmitStmt(Free(e), s))
    decreases IdleProcs(e), s, 0
  {
    hide Refines, EmitSimple, OpenFrame, CloseFrame, EvalInt, EmitBody, EmitRepeat, EmitCall, LegalInFrame;
    if !(e.frames != [] && !LegalInFrame(s)) {
      match s
      case Frame(body) => FrameRefines(e, body);
      case CallProc(name, args) => CallRefines(e, name, args);
      case Repeat(count, body) =>
        if EvalInt(count, e.env).Ok? && 0 <= EvalInt(count, e.env).value <= MAX_UNROLL {
          RepeatRefines(e, EvalInt(count, e.env).value, body);
        } else {
          RepeatRejected(e, count, body);
        }
      case _ => SimpleRefines(e, s);
    } else {
      Misplaced(e, s);
    }
  }

  lemma Misplaced(e: Emitter, s: Stmt)
    requires Within(e) && e.frames != [] && !LegalInFrame(s)
    ensures Refines(EmitStmt(e, s), EmitStmt(Free(e), s))
  {
  }

  lemma RepeatRejected(e: Emitter, count: Expr, body: seq<Stmt>)
    requires Within(e) && !(EvalInt(count, e.env).Ok? && 0 <= EvalInt(count, e.env).value <= MAX_UNROLL)
    ensures Refines(EmitStmt(e, Repeat(count, body)), EmitStmt(Free(e), Repeat(count, body)))
  {
    hide EvalInt;
  }

  lemma {:induction false} FrameRefines(e: Emitter, body: seq<Stmt>)
    requires Within(e) && (e.frames == [] || LegalInFrame(Frame(body)))
    ensures Refines(EmitStmt(e, Frame(body)), EmitStmt(Free(e), Frame(body)))
    decreases IdleProcs(e), body, 1
  {
    hide OpenFrame, CloseFrame, EmitBody;
    OpenRefines(e);
    if OpenFrame(e).Ok? {
      var e1 := OpenFrame(e).value;
      assert IdleProcs(e1) == IdleProcs(e);
      BodyRefines(e1, body);
      if EmitBody(e1, body).Ok? {
        CloseRefines(EmitBody(e1, body).value);
      } else {
        FrameOverrun(Free(e1), body);
      }
    } else {
      FrameNotOpened(e, body);
    }
  }

  lemma FrameOverrun(u1: Emitter, body: seq<Stmt>)
    requires u1.Valid() && u1.frames != [] && !(EmitBody(u1, body).Ok? && Fits(EmitBody(u1, body).value))
    ensures EmitBody(u1, body).Ok? && CloseFrame(EmitBody(u1, body).value).Ok?
        ==> !Fits(CloseFrame(EmitBody(u1, body).value).value)
  {
    hide EmitBody, CloseFrame;
    if EmitBody(u1, body).Ok? && CloseFrame(EmitBody(u1, body).value).Ok? {
      var u2 := EmitBody(u1, body).value;
      var u3 := CloseFrame(u2).value;
      if Fits(u3) {
        Overrun(u2.(frames := u3.frames), u3);
      }
    }
  }

  lemma FrameNotOpened(e: Emitter, body: seq<Stmt>)
    requires Within(e) && OpenFrame(e).Err? && Refines(OpenFrame(e), OpenFrame(Free(e)))
    requires e.frames == [] || LegalInFrame(Frame(body))
    ensures Refines(EmitStmt(e, Frame(body)), EmitStmt(Free(e), Frame(body)))
  {
    hide OpenFrame, CloseFrame, EmitBody;
    var u := EmitStmt(Free(e), Frame(body));
    if u.Ok? && Fits(u.value) {
      var u1 := OpenFrame(Free(e)).value;
      var u2 := EmitBody(u1, body).value;
      var u3 := CloseFrame(u2).value;
      Overrun(u2.(frames := u3.frames), u3);
      Overrun(u1, u2);
    }
  }

  lemma {:induction false} BodyRefines(e: Emitter, body: seq<Stmt>)
    requires Within(e)
    ensures Refines(EmitBody(e, body), EmitBody(Free(e), body))
    decreases IdleProcs(e), body, 0
  {
    hide EmitStmt;
    if body != [] {
      StmtRefines(e, body[0]);
      if EmitStmt(e, body[0]).Ok? {
        var e1 := EmitStmt(e, body[0]).value;
        assert IdleProcs(e1) == IdleProcs(e);
        BodyRefines(e1, body[1..]);
      } else if EmitBody(Free(e), body).Ok? && Fits(EmitBody(Free(e), body).value) {
        Overrun(EmitStmt(Free(e), body[0]).value, EmitBody(Free(e), body).value);
      }
    }
  }

  lemma {:induction false} CallRefines(e: Emitter, name: string, args: seq<Arg>)
    requires Within(e)
    ensures Refines(EmitCall(e, name, args), EmitCall(Free(e), name, args))
    decreases IdleProcs(e), args, 0
  {
    hide EmitBody, BindArgs, ExitExpansion, EnterExpansion;
    if name !in e.env.fns && name in e.procs && name !in e.active {
      var p := e.procs[name];
      if BindArgs(name, p.params, args, e.env).Ok? {
        var bindings := BindArgs(name, p.params, args, e.env).value;
        EnterRefines(e);
        if EnterExpansion(e).Ok? {
          var e2 := Inlined(EnterExpansion(e).value, name, bindings);
          assert name in IdleProcs(e) && name !in IdleProcs(e2) && IdleProcs(e2) < IdleProcs(e);
          BodyRefines(e2, p.body);
          if EmitBody(e2, p.body).Ok? {
            ExitRefines(EmitBody(e2, p.body).value.(env := e.env, active := e.active));
          } else {
            CallOverrun(e, name, args);
          }
        } else {
          CallOverrun(e, name, args);
        }
      }
    }
  }

  /** The unbudgeted call is over budget once its entry or its body is. */
  lemma CallOverrun(e: Emitter, name: string, args: seq<Arg>)
    requires e.Valid() && name !in e.env.fns && name in e.procs && name !in e.active
    requires BindArgs(name, e.procs[name].params, args, e.env).Ok?
    ensures var u := EmitCall(Free(e), name, args);
            u.Ok? && Fits(u.value) ==>
              && EnterExpansion(Free(e)).Ok? && Fits(EnterExpansion(Free(e)).value)
              && var u2 := Inlined(EnterExpansion(Free(e)).value, name,
                                   BindArgs(name, e.procs[name].params, args, e.env).value);
                 EmitBody(u2, e.procs[name].body).Ok? && Fits(EmitBody(u2, e.procs[name].body).value)
  {
    hide EmitBody, BindArgs, ExitExpansion, EnterExpansion;
  }

  lemma {:induction false} RepeatRefines(e: Emitter, n: nat, body: seq<Stmt>)
    requires Within(e)
    ensures Refines(EmitRepeat(e, n, body), EmitRepeat(Free(e), n, body))
    decreases IdleProcs(e), body, 1, n
  {
    hide EmitBody, ExitExpansion, EnterExpansion;
    if n > 0 {
      EnterRefines(e);
      if EnterExpansion(e).Ok? {
        var e1 := EnterExpansion(e).value;
        assert IdleProcs(e1) == IdleProcs(e);
        BodyRefines(e1, body);
        if EmitBody(e1, body).Ok? {
          var e2 := EmitBody(e1, body).value;
          ExitRefines(e2);
          assert IdleProcs(ExitExpansion(e2)) == IdleProcs(e);
          RepeatRefines(ExitExpansion(e2), n - 1, body);
        } else {
          RepeatOverrun(e, n, body);
        }
      } else {
        RepeatOverrun(e, n, body);
      }
    }
  }

  lemma RepeatOverrun(e: Emitter, n: nat, body: seq<Stmt>)
    requires e.Valid() && n > 0
    ensures var u := EmitRepeat(Free(e), n, body);
            u.Ok? && Fits(u.value) ==>
              && EnterExpansion(Free(e)).Ok? && Fits(EnterExpansion(Free(e)).value)
              && EmitBody(EnterExpansion(Free(e)).value, body).Ok?
              && Fits(EmitBody(EnterExpansion(Free(e)).value, body).value)
  {
    hide EmitBody, ExitExpansion, EnterExpansion;
  }

  // ----- whole programs -----

  lemma {:induction false} TrailersRefine(e: Emitter, trailers: seq<Trailer>)
    requires Within(e)
    ensures Refines(PushTrailers(e, trailers), PushTrailers(Free(e), trailers))
    decreases |trailers|
  {
    hide Push, HaltLine;
    if trailers != [] {
      var t := trailers[0];
      PushRefines(e, Label(t.target));
      if Push(e, Label(t.target)).Ok? {
        var e1 := Push(e, Label(t.target)).value;
        PushRefines(e1, HaltLine(t.code));
        if Push(e1, HaltLine(t.code)).Ok? {
          TrailersRefine(Push(e1, HaltLine(t.code)).value, trailers[1..]);
        }
      }
    }
  }

  lemma TestRefines(e: Emitter, stmts: seq<Stmt>)
    requires Within(e) && e.lines == []
    ensures Refines(EmitTest(e, stmts), EmitTest(Free(e), stmts))
  {
    hide EmitBody, PushTrailers;
    var e2 := Push(Push(e, PROLOGUE[0]).value, PROLOGUE[1]).value;
    BodyRefines(e2, stmts);
    if EmitBody(e2, stmts).Ok? {
      var e3 := EmitBody(e2, stmts).value;
      TrailersRefine(e3.(trailers := []), e3.trailers);
    }
  }

  /**
   * A module is accepted exactly when the unbudgeted expansion meets no error, emits at most 4096
   * lines, trailers included, and performs at most 65536 expansions; the output is then the same.
   */
  lemma BudgetsRefine(m: Module)
    ensures var r, u := Lowered(true, m), Lowered(false, m);
            && (r.Ok? <==> u.Ok? && |u.value.lines| <= 4096 && u.value.expansions <= 65536)
            && (r.Ok? ==>
                  && r.value.asm == u.value.asm && r.value.lines == u.value.lines
                  && r.value.expansions == u.value.expansions)
  {
    hide EmitTest, ModuleEnv, ProcTable, Halts;
    if ModuleEnv(m).Ok? && |m.tests| == 1 {
      TestRefines(Start(true, ProcTable(m.procs), ModuleEnv(m).value), m.tests[0].stmts);
    }
  }
}
