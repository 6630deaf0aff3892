/** Pending verdicts keep their registers through every expansion. */
module Verdicts {
  import opened Prelude
  import opened Asm
  import opened Ast
  import opened ConstEval
  import opened Registers
  import opened Emit
  import C = Crc8

  function Pending(e: Emitter): seq<Deferred> { if e.frames == [] then [] else e.frames[|e.frames| - 1] }

  /** Pending verdicts own their registers, and frames do not nest. */
  ghost predicate Sound(e: Emitter): (b: bool)
    ensures b ==> e.Valid()
  {
    && e.Valid()
    && |e.frames| <= 1
    && forall d :: d in Pending(e) ==> e.pool.busy[d.reg]
  }

  lemma FreshReg(e: Emitter, reg: nat)
    requires Sound(e) && reg < 16 && !e.pool.busy[reg]
    ensures forall d :: d in Pending(e) ==> d.reg != reg
  {
  }

  // ----- every lowering step keeps `Sound` -----

  lemma PushSound(e: Emitter, line: Line, e': Emitter)
    requires Sound(e) && Push(e, line) == Ok(e')
    ensures Sound(e')
  {
  }

  lemma {:induction false} PutSound(e: Emitter, bytes: seq<byte>, e': Emitter)
    requires Sound(e) && PushBytes(e, bytes) == Ok(e')
    ensures Sound(e') && e'.pool == e.pool && e'.frames == e.frames
    decreases |bytes|
  {
    if bytes != [] {
      PutSound(Push(e, PutLine(bytes[0])).value, bytes[1..], e');
    }
  }

  lemma RecvOneSound(e: Emitter, target: RecvTarget, e': Emitter)
    requires Sound(e) && RecvOne(e, target) == Ok(e')
    ensures Sound(e') && e'.frames == e.frames
  {
    hide Alloc, BindName;
  }

  lemma {:induction false} RecvAllSound(e: Emitter, targets: seq<RecvTarget>, e': Emitter)
    requires Sound(e) && RecvAll(e, targets) == Ok(e')
    ensures Sound(e') && e'.frames == e.frames
    decreases |targets|
  {
    hide RecvOne, Sound;
    if targets != [] {
      RecvOneSound(e, targets[0], RecvOne(e, targets[0]).value);
      RecvAllSound(RecvOne(e, targets[0]).value, targets[1..], e');
    }
  }

  /** The scratch register of the poll loop is free again afterwards. */
  lemma PollAgainPool(e: Emitter, loop: string, resp: nat, e': Emitter)
    requires e.Valid() && PollAgain(e, loop, resp) == Ok(e')
    ensures e'.pool.busy == e.pool.busy && e'.frames == e.frames && e'.trailers == e.trailers && e'.gensym == e.gensym
  {
    hide Alloc;
    var k := Alloc(e.pool).value;
    assert e'.pool.busy == e.pool.busy[k.reg := true][k.reg := false];
  }

  lemma WaitStateSound(e: Emitter, bind: Option<string>, e': Emitter)
    requires Sound(e) && LowerWaitState(e, bind) == Ok(e')
    ensures Sound(e') && e'.frames == e.frames
  {
    hide PollAgain, Alloc, BindName, TakeReg;
    var loop := WaitLabel(e.gensym);
    var e1 := PollStart(e, loop).value;
    var resp := TakeReg(e1, bind).value;
    var e2 := Push(e1.(pool := resp.pool), GetLine(resp.reg)).value;
    PollAgainPool(e2, loop, resp.reg, PollAgain(e2, loop, resp.reg).value);
    FreshReg(e, resp.reg);
  }

  lemma LatchSound(e: Emitter, code: byte, e': Emitter)
    requires Sound(e) && e.frames != [] && Latch(e, code) == Ok(e')
    ensures Sound(e') && |e'.frames| == 1
  {
    hide Alloc, FailLabel;
    FreshReg(e, Alloc(e.pool).value.reg);
  }

  lemma ExpectSound(e: Emitter, elseCode: Expr, e': Emitter)
    requires Sound(e) && LowerExpect(e, elseCode) == Ok(e')
    ensures Sound(e') && |e'.frames| == 1
  {
    hide Sound, RecvOne, Latch, EvalByte;
    var e1 := RecvOne(e, Discard).value;
    RecvOneSound(e, Discard, e1);
    LatchSound(e1, EvalByte(elseCode, e.env).value, e');
  }

  lemma SimpleSound(e: Emitter, s: Stmt, e': Emitter)
    requires Sound(e) && !s.Frame? && !s.CallProc? && !s.Repeat? && EmitSimple(e, s) == Ok(e')
    ensures Sound(e')
  {
    hide PushBytes, RecvAll, LowerWaitState, LowerExpect, EvalBytes, EvalSends;
    match s
    case Send(bytes, appendCrc) =>
      var b := EvalBytes(bytes, e.env).value;
      PutSound(e, if appendCrc then b + [C.Crc8(b)] else b, e');
    case CrcRegion(sends) =>
      var b := EvalSends(sends, e.env).value;
      PutSound(e, b + [C.Crc8(b)], e');
    case Recv(targets) => RecvAllSound(e, targets, e');
    case WaitState(bind) => WaitStateSound(e, bind, e');
    case Expect(elseCode) => ExpectSound(e, elseCode, e');
    case _ =>
  }

  lemma {:induction false} ReserveAllBusy(p: Pool, deferred: seq<Deferred>)
    requires p.Valid() && forall d :: d in deferred ==> 1 <= d.reg < NUM_REGS
    ensures var q := ReserveAll(p, deferred);
            && (forall d :: d in deferred ==> q.busy[d.reg])
            && (forall n :: 0 <= n < NUM_REGS && p.busy[n] ==> q.busy[n])
            && (forall n :: 0 <= n < NUM_REGS && q.busy[n] ==> p.busy[n] || exists d :: d in deferred && d.reg == n)
    decreases |deferred|
  {
    if deferred != [] {
      ReserveAllBusy(Reserve(p, deferred[0].reg), deferred[1..]);
    }
  }

  lemma ExitSound(e: Emitter)
    requires e.Valid() && |e.frames| <= 1
    ensures Sound(ExitExpansion(e))
  {
    hide ReserveAll;
    if e.frames != [] {
      ReserveAllBusy(Exit(e.pool), Pending(e));
    }
  }

  lemma {:induction false} VerdictsSound(e: Emitter, deferred: seq<Deferred>, e': Emitter)
    requires e.Valid() && PushVerdicts(e, deferred) == Ok(e')
    ensures e'.pool == e.pool
    decreases |deferred|
  {
    if deferred != [] {
      var e1 := Push(e, BnezLine(deferred[0])).value;
      VerdictsSound(e1.(trailers := e1.trailers + [Trailer(deferred[0].target, deferred[0].code)]), deferred[1..], e');
    }
  }

  lemma {:induction false} StmtSound(e: Emitter, s: Stmt, e': Emitter)
    requires Sound(e) && EmitStmt(e, s) == Ok(e')
    ensures Sound(e')
    decreases IdleProcs(e), s, 0
  {
    hide EmitSimple, OpenFrame, CloseFrame, EvalInt, EmitBody, EmitRepeat, EmitCall, LegalInFrame;
    match s
    case Frame(body) =>
      var e1 := OpenFrame(e).value;
      assert IdleProcs(e1) == IdleProcs(e);
      OpenSound(e, e1, s);
      var e2 := EmitBody(e1, body).value;
      BodySound(e1, body, e2);
      CloseSound(e2, e');
    case CallProc(name, args) => CallSound(e, name, args, e');
    case Repeat(count, body) => RepeatSound(e, EvalInt(count, e.env).value, body, e');
    case _ => SimpleSound(e, s, e');
  }

  lemma OpenSound(e: Emitter, e1: Emitter, s: Stmt)
    requires Sound(e) && s.Frame? && (e.frames == [] || LegalInFrame(s)) && OpenFrame(e) == Ok(e1)
    ensures Sound(e1) && e1.frames == [[]]
  {
  }

  lemma CloseSound(e: Emitter, e': Emitter)
    requires Sound(e) && |e.frames| == 1 && CloseFrame(e) == Ok(e')
    ensures Sound(e') && e'.frames == []
  {
  }

  lemma {:induction false} BodySound(e: Emitter, body: seq<Stmt>, e': Emitter)
    requires Sound(e) && EmitBody(e, body) == Ok(e')
    ensures Sound(e')
    decreases IdleProcs(e), body, 0
  {
    hide EmitStmt, Sound;
    if body != [] {
      var e1 := EmitStmt(e, body[0]).value;
      StmtSound(e, body[0], e1);
      assert IdleProcs(e1) == IdleProcs(e);
      BodySound(e1, body[1..], e');
    }
  }

  lemma {:induction false} CallSound(e: Emitter, name: string, args: seq<Arg>, e': Emitter)
    requires Sound(e) && EmitCall(e, name, args) == Ok(e')
    ensures Sound(e')
    decreases IdleProcs(e), args, 0
  {
    hide EmitBody, BindArgs, ExitExpansion;
    var p := e.procs[name];
    var bindings := BindArgs(name, p.params, args, e.env).value;
    var e1 := EnterExpansion(e).value;
    var e2 := Inlined(e1, name, bindings);
    assert name in IdleProcs(e) && name !in IdleProcs(e2) && IdleProcs(e2) < IdleProcs(e);
    var e3 := EmitBody(e2, p.body).value;
    BodySound(e2, p.body, e3);
    ExitSound(e3.(env := e.env, active := e.active));
  }

  lemma {:induction false} RepeatSound(e: Emitter, n: nat, body: seq<Stmt>, e': Emitter)
    requires Sound(e) && EmitRepeat(e, n, body) == Ok(e')
    ensures Sound(e')
    decreases IdleProcs(e), body, 1, n
  {
    hide EmitBody, ExitExpansion;
    if n > 0 {
      var e1 := EnterExpansion(e).value;
      assert IdleProcs(e1) == IdleProcs(e);
      var e2 := EmitBody(e1, body).value;
      BodySound(e1, body, e2);
      ExitSound(e2);
      assert IdleProcs(ExitExpansion(e2)) == IdleProcs(e);
      RepeatSound(ExitExpansion(e2), n - 1, body, e');
    }
  }
}
