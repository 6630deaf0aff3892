/** The emitter as the compiler runs it: one object, updated in place. */
module Lowering {
  import opened Prelude
  import opened Text
  import opened Asm
  import opened Ast
  import opened ConstEval
  import opened Registers
  import E = Emit
  import P = Printer
  import C = Crc8

  class Emitter {
    const alloc: RegAlloc
    const procs: map<string, ProcDef>
    var env: Env
    var lines: seq<Line>
    var asm: string
    ghost var texts: seq<P.Written>
    var gensym: nat
    var trailers: seq<E.Trailer>
    var frames: seq<seq<E.Deferred>>
    var activeProcs: seq<string>
    var expansions: nat

    /** `asm` is the text of the lines; `texts` keeps them apart. */
    ghost predicate Valid()
      reads this, alloc, alloc.busy
    {
      alloc.Valid() && E.DeferredInWindow(frames) && asm == P.TextAll(texts)
    }

    /** The state as a value. */
    ghost function View(): (e: E.Emitter)
      reads this, alloc, alloc.busy
      ensures Valid() ==> e.Valid()
    {
      E.Emitter(true, procs, env, lines, texts, alloc.Contents(), gensym, trailers, frames, activeProcs, expansions)
    }

    /** The object has come to what `spec` says: its new state, or its error. */
    ghost predicate Reached(spec: E.Emitted, err: Option<LangError>)
      reads this, alloc, alloc.busy
    {
      match err
      case None => spec == Ok(View())
      case Some(x) => spec == Err(x)
    }

    /** The stacks of the emitter, which every method leaves as it found them, even on an error. */
    ghost function Stacks(): (Env, seq<string>, int)
      reads this
    {
      (env, activeProcs, |frames|)
    }

    constructor (procs: map<string, ProcDef>, env: Env)
      ensures fresh(alloc) && fresh(alloc.busy) && Valid()
      ensures View() == E.Start(true, procs, env)
    {
      this.procs, this.env := procs, env;
      lines, asm, texts, gensym, trailers, frames, activeProcs, expansions := [], "", [], 0, [], [], [], 0;
      alloc := new RegAlloc();
    }

    method Append(line: Line, text: P.Written) returns (err: Option<LangError>)
      requires Valid()
      modifies this
      ensures Valid() && Stacks() == old(Stacks()) && Reached(E.Append(old(View()), line, text), err)
      ensures unchanged(`env, `gensym, `trailers, `frames, `activeProcs, `expansions)
    {
      if |lines| >= E.MAX_EMITTED_LINES { return Some(LineBudget); }
      lines := lines + [line];
      P.TextAppend(texts, text);
      texts := texts + [text];
      asm := asm + P.TextOf(text);
      return None;
    }

    method Push(line: Line) returns (err: Option<LangError>)
      requires Valid()
      modifies this
      ensures Valid() && Stacks() == old(Stacks()) && Reached(E.Push(old(View()), line), err)
      ensures unchanged(`env, `gensym, `trailers, `frames, `activeProcs, `expansions)
    {
      err := Append(line, P.Write(line, true));
    }

    /** The words of the source go into the text as they are. */
    method Copy(mnemonic: Word, operands: seq<Lexeme>) returns (err: Option<LangError>)
      requires Valid()
      modifies this
      ensures Valid() && Stacks() == old(Stacks()) && Reached(E.Copy(old(View()), mnemonic, operands), err)
      ensures unchanged(`env, `gensym, `trailers, `frames, `activeProcs, `expansions)
    {
      err := Append(E.CopiedLine(mnemonic, operands), E.CopiedText(mnemonic, operands));
    }

    method PushBytes(bytes: seq<byte>) returns (err: Option<LangError>)
      requires Valid()
      modifies this
      ensures Valid() && Stacks() == old(Stacks()) && Reached(E.PushBytes(old(View()), bytes), err)
    {
      assert bytes[0..] == bytes;
      for i := 0 to |bytes|
        invariant Valid() && Stacks() == old(Stacks())
        invariant E.PushBytes(old(View()), bytes) == E.PushBytes(View(), bytes[i..])
      {
        assert bytes[i..][0] == bytes[i] && bytes[i..][1..] == bytes[i + 1..];
        err := Push(E.PutLine(bytes[i]));
        if err.Some? { return; }
      }
      return None;
    }

    /** A register for `name`, or a scratch register. */
    method TakeReg(name: Option<string>) returns (reg: Option<nat>)
      requires Valid()
      modifies alloc, alloc.busy
      ensures alloc.busy == old(alloc.busy) && Valid() && Stacks() == old(Stacks())
      ensures match E.TakeReg(old(View()), name)
              case None => reg == None && View() == old(View())
              case Some(t) => reg == Some(t.reg) && View() == old(View()).(pool := t.pool)
    {
      match name {
        case None => reg := alloc.Take();
        case Some(n) => reg := alloc.BindTo(n);
      }
    }

    method FreeReg(reg: nat)
      requires Valid()
      modifies alloc, alloc.busy
      ensures alloc.busy == old(alloc.busy) && Valid() && Stacks() == old(Stacks())
      ensures View() == old(View()).(pool := Free(old(View()).pool, reg))
    {
      alloc.Release(reg);
    }

    // ----- statements that receive -----

    method RecvOne(target: RecvTarget) returns (err: Option<LangError>)
      requires Valid()
      modifies this, alloc, alloc.busy
      ensures alloc.busy == old(alloc.busy) && Valid() && Stacks() == old(Stacks())
      ensures Reached(E.RecvOne(old(View()), target), err)
    {
      var reg := TakeReg(E.NameOf(target));
      if reg.None? { return Some(OutOfRegisters); }
      err := Push(E.GetLine(reg.value));
      if err.Some? { return; }
      if target.Discard? {
        FreeReg(reg.value);
      }
    }

    method LowerRecv(targets: seq<RecvTarget>) returns (err: Option<LangError>)
      requires Valid()
      modifies this, alloc, alloc.busy
      ensures alloc.busy == old(alloc.busy) && Valid() && Stacks() == old(Stacks())
      ensures Reached(E.RecvAll(old(View()), targets), err)
    {
      hide E.RecvOne;
      assert targets[0..] == targets;
      for i := 0 to |targets|
        invariant alloc.busy == old(alloc.busy) && Valid() && Stacks() == old(Stacks())
        invariant E.RecvAll(old(View()), targets) == E.RecvAll(View(), targets[i..])
      {
        assert targets[i..][0] == targets[i] && targets[i..][1..] == targets[i + 1..];
        err := RecvOne(targets[i]);
        if err.Some? { return; }
      }
      return None;
    }

    method PollStart(loop: string) returns (err: Option<LangError>)
      requires Valid()
      modifies this
      ensures Valid() && Stacks() == old(Stacks()) && Reached(E.PollStart(old(View()), loop), err)
    {
      gensym := gensym + 1;
      err := Push(Label(loop));
      if err.Some? { return; }
      err := Push(E.CRC_RESET);
    }

    method PollAgain(loop: string, resp: nat) returns (err: Option<LangError>)
      requires Valid()
      modifies this, alloc, alloc.busy
      ensures alloc.busy == old(alloc.busy) && Valid() && Stacks() == old(Stacks())
      ensures Reached(E.PollAgain(old(View()), loop, resp), err)
    {
      hide Alloc, Free;
      var k := TakeReg(None);
      if k.None? { return Some(OutOfRegisters); }
      err := Push(Op("li", [E.Reg(k.value), Num(E.WAIT_STATE_CODE)]));
      if err.Some? { return; }
      err := Push(Op("beq", [E.Reg(resp), E.Reg(k.value), Ident(loop)]));
      if err.Some? { return; }
      FreeReg(k.value);
    }

    method LowerWaitState(bind: Option<string>) returns (err: Option<LangError>)
      requires Valid()
      modifies this, alloc, alloc.busy
      ensures alloc.busy == old(alloc.busy) && Valid() && Stacks() == old(Stacks())
      ensures Reached(E.LowerWaitState(old(View()), bind), err)
    {
      hide E.PollStart, E.PollAgain, E.TakeReg, Free;
      var loop := E.WaitLabel(gensym);
      err := PollStart(loop);
      if err.Some? { return; }
      var resp := TakeReg(bind);
      if resp.None? { return Some(OutOfRegisters); }
      err := Push(E.GetLine(resp.value));
      if err.Some? { return; }
      err := PollAgain(loop, resp.value);
      if err.Some? { return; }
      if bind.None? {
        FreeReg(resp.value);
      }
    }

    /** Latches the residue; the verdict is only noted, for the frame to branch on after CS# is high again. */
    method Latch(code: byte) returns (err: Option<LangError>)
      requires Valid() && frames != []
      modifies this, alloc, alloc.busy
      ensures alloc.busy == old(alloc.busy) && Valid() && Stacks() == old(Stacks())
      ensures Reached(E.Latch(old(View()), code), err)
    {
      hide Alloc, E.FailLabel, RegName;
      var res := TakeReg(None);
      if res.None? { return Some(OutOfRegisters); }
      err := Push(Op("rdsr", [E.Reg(res.value), Ident("crc")]));
      if err.Some? { return; }
      var d := E.Deferred(res.value, E.FailLabel(gensym), code);
      gensym := gensym + 1;
      var top := |frames| - 1;
      frames := frames[top := frames[top] + [d]];
    }

    method LowerExpect(elseCode: Expr) returns (err: Option<LangError>)
      requires Valid()
      modifies this, alloc, alloc.busy
      ensures alloc.busy == old(alloc.busy) && Valid() && Stacks() == old(Stacks())
      ensures Reached(E.LowerExpect(old(View()), elseCode), err)
    {
      hide EvalByte, E.RecvOne, E.Latch;
      if frames == [] { return Some(Rejected); }
      var code := EvalByte(elseCode, env);
      if code.Err? { return Some(code.error); }
      err := RecvOne(Discard);
      if err.Some? { return; }
      err := Latch(code.value);
    }

    // ----- statements without a body -----

    method LowerSend(bytes: Expr, appendCrc: bool) returns (err: Option<LangError>)
      requires Valid()
      modifies this
      ensures Valid() && Stacks() == old(Stacks())
      ensures Reached(E.EmitSimple(old(View()), Send(bytes, appendCrc)), err)
    {
      hide EvalBytes, E.PushBytes;
      var b := EvalBytes(bytes, env);
      if b.Err? { return Some(b.error); }
      err := PushBytes(if appendCrc then b.value + [C.Crc8(b.value)] else b.value);
    }

    /** The bytes of every send of a region, in order. */
    method FoldSends(sends: seq<Expr>) returns (r: Result<seq<byte>, LangError>)
      ensures r == E.EvalSends(sends, env)
    {
      hide EvalBytes;
      var total: seq<byte> := [];
      assert sends[0..] == sends;
      NothingYet(E.EvalSends(sends, env));
      for i := 0 to |sends|
        invariant Joined(total, E.EvalSends(sends[i..], env)) == E.EvalSends(sends, env)
      {
        assert sends[i..][0] == sends[i] && sends[i..][1..] == sends[i + 1..];
        var b := EvalBytes(sends[i], env);
        if b.Err? { return Err(b.error); }
        ghost var rest := E.EvalSends(sends[i + 1..], env);
        if rest.Ok? {
          Assoc(total, b.value, rest.value);
        }
        total := total + b.value;
      }
      assert sends[|sends|..] == [] && total + [] == total;
      return Ok(total);
    }

    method LowerCrcRegion(sends: seq<Expr>) returns (err: Option<LangError>)
      requires Valid()
      modifies this
      ensures Valid() && Stacks() == old(Stacks())
      ensures Reached(E.EmitSimple(old(View()), CrcRegion(sends)), err)
    {
      hide E.EvalSends, E.PushBytes;
      var total := FoldSends(sends);
      if total.Err? { return Some(total.error); }
      err := PushBytes(total.value + [C.Crc8(total.value)]);
    }

    /** `total` followed by what is still to come. */
    static ghost function Joined(total: seq<byte>, rest: Result<seq<byte>, LangError>): Result<seq<byte>, LangError> {
      match rest
      case Ok(b) => Ok(total + b)
      case Err(x) => Err(x)
    }

    static lemma NothingYet(rest: Result<seq<byte>, LangError>)
      ensures Joined([], rest) == rest
    {
      if rest.Ok? {
        assert [] + rest.value == rest.value;
      }
    }

    method Simple(s: Stmt) returns (err: Option<LangError>)
      requires Valid() && !s.Frame? && !s.CallProc? && !s.Repeat?
      modifies this, alloc, alloc.busy
      ensures alloc.busy == old(alloc.busy) && Valid() && Stacks() == old(Stacks())
      ensures Reached(E.EmitSimple(old(View()), s), err)
    {
      hide E.Push, E.Copy, E.PushBytes, E.RecvAll, E.LowerWaitState, E.LowerExpect, EvalBytes, E.EvalSends;
      match s {
        case Pass => err := Push(E.HaltLine(0));
        case Fail(code) => err := Copy(E.HALT, [code]);
        case Raw(mnemonic, operands) => err := Copy(mnemonic, operands);
        case Send(bytes, appendCrc) => err := LowerSend(bytes, appendCrc);
        case CrcRegion(sends) => err := LowerCrcRegion(sends);
        case Config(keywords) => err := Copy(E.SET_CONFIG, keywords);
        case Recv(targets) => err := LowerRecv(targets);
        case WaitState(bind) => err := LowerWaitState(bind);
        case Expect(elseCode) => err := LowerExpect(elseCode);
      }
    }

    // ----- frames and expansions -----

    method OpenFrame() returns (err: Option<LangError>)
      requires Valid()
      modifies this, alloc, alloc.busy
      ensures alloc.busy == old(alloc.busy) && Valid()
      ensures Reached(E.OpenFrame(old(View())), err)
      ensures env == old(env) && activeProcs == old(activeProcs)
      ensures frames == old(frames) + (if err.None? then [[]] else [])
    {
      err := Push(E.CS_ASSERT);
      if err.Some? { return; }
      alloc.EnterScope();
      frames := frames + [[]];
    }

    /** Popping the frame comes first, so that the stack is balanced even if a line is refused. */
    method CloseFrame() returns (err: Option<LangError>)
      requires Valid() && frames != []
      modifies this, alloc, alloc.busy
      ensures alloc.busy == old(alloc.busy) && Valid()
      ensures Reached(E.CloseFrame(old(View())), err)
      ensures env == old(env) && activeProcs == old(activeProcs) && frames == old(frames[..|frames| - 1])
    {
      hide Exit, E.BnezLine;
      var top := |frames| - 1;
      var deferred := frames[top];
      frames := frames[..top];
      err := Push(E.CS_DEASSERT);
      if err.Some? { return; }
      ghost var e1 := View();
      assert deferred[0..] == deferred;
      for i := 0 to |deferred|
        invariant alloc.busy == old(alloc.busy) && Valid()
        invariant env == old(env) && activeProcs == old(activeProcs) && frames == old(frames[..|frames| - 1])
        invariant E.PushVerdicts(e1, deferred) == E.PushVerdicts(View(), deferred[i..])
      {
        var d := deferred[i];
        assert deferred[i..][0] == d && deferred[i..][1..] == deferred[i + 1..];
        err := Push(E.BnezLine(d));
        if err.Some? { return; }
        trailers := trailers + [E.Trailer(d.target, d.code)];
      }
      alloc.ExitScope();
      return None;
    }

    method EnterExpansion() returns (err: Option<LangError>)
      requires Valid()
      modifies this, alloc
      ensures alloc.busy == old(alloc.busy) && Valid() && Stacks() == old(Stacks())
      ensures Reached(E.EnterExpansion(old(View())), err)
    {
      if expansions >= E.MAX_EXPANSIONS { return Some(ExpansionBudget); }
      expansions := expansions + 1;
      alloc.EnterScope();
      return None;
    }

    static lemma ReserveStep(p: Pool, deferred: seq<E.Deferred>)
      requires p.Valid() && deferred != [] && forall d :: d in deferred ==> 1 <= d.reg < NUM_REGS
      ensures Reserve(p, deferred[0].reg).Valid()
      ensures E.ReserveAll(p, deferred) == E.ReserveAll(Reserve(p, deferred[0].reg), deferred[1..])
    {
    }

    static lemma ReserveNone(p: Pool)
      requires p.Valid()
      ensures E.ReserveAll(p, []) == p
    {
    }

    /** Re-takes the registers the open frame's verdicts depend on. */
    method ReserveDeferred()
      requires Valid()
      modifies alloc, alloc.busy
      ensures alloc.busy == old(alloc.busy) && Valid()
      ensures View() == if frames == [] then old(View())
                        else old(View()).(pool := E.ReserveAll(old(View()).pool, frames[|frames| - 1]))
    {
      hide E.ReserveAll, Reserve;
      if frames == [] { return; }
      var deferred := frames[|frames| - 1];
      assert deferred[0..] == deferred;
      for i := 0 to |deferred|
        invariant alloc.busy == old(alloc.busy) && alloc.Valid() && Valid()
        invariant forall d :: d in deferred[i..] ==> 1 <= d.reg < NUM_REGS
        invariant E.ReserveAll(alloc.Contents(), deferred[i..]) == E.ReserveAll(old(alloc.Contents()), deferred)
      {
        assert deferred[i..][0] == deferred[i] && deferred[i..][1..] == deferred[i + 1..];
        ReserveStep(alloc.Contents(), deferred[i..]);
        alloc.Retake(deferred[i].reg);
      }
      ReserveNone(alloc.Contents());
    }

    method ExitExpansion()
      requires Valid()
      modifies alloc, alloc.busy
      ensures alloc.busy == old(alloc.busy) && Valid()
      ensures View() == E.ExitExpansion(old(View()))
    {
      hide Exit;
      alloc.ExitScope();
      ReserveDeferred();
    }

    // ----- statements -----

    method Statement(s: Stmt) returns (err: Option<LangError>)
      requires Valid()
      modifies this, alloc, alloc.busy
      ensures alloc.busy == old(alloc.busy) && Valid() && Stacks() == old(Stacks())
      ensures Reached(E.EmitStmt(old(View()), s), err)
      decreases E.IdleProcs(View()), s, 0
    {
      hide E.EmitSimple, E.EmitBody, E.EmitRepeat, E.EmitCall, E.OpenFrame, E.CloseFrame, E.IdleProcs;
      if frames != [] && !E.LegalInFrame(s) { return Some(Rejected); }
      match s {
        case Frame(body) => err := LowerFrame(body);
        case CallProc(name, args) => err := LowerCall(name, args);
        case Repeat(count, body) => err := LowerRepeat(count, body);
        case _ => err := Simple(s);
      }
    }

    method Statements(body: seq<Stmt>) returns (err: Option<LangError>)
      requires Valid()
      modifies this, alloc, alloc.busy
      ensures alloc.busy == old(alloc.busy) && Valid() && Stacks() == old(Stacks())
      ensures Reached(E.EmitBody(old(View()), body), err)
      decreases E.IdleProcs(View()), body, 0
    {
      hide E.EmitStmt;
      assert body[0..] == body;
      for i := 0 to |body|
        invariant alloc.busy == old(alloc.busy) && Valid() && Stacks() == old(Stacks())
        invariant E.EmitBody(old(View()), body) == E.EmitBody(View(), body[i..])
      {
        assert body[i..][0] == body[i] && body[i..][1..] == body[i + 1..];
        assert E.IdleProcs(View()) == old(E.IdleProcs(View()));
        err := Statement(body[i]);
        if err.Some? { return; }
      }
      return None;
    }

    method LowerFrame(body: seq<Stmt>) returns (err: Option<LangError>)
      requires Valid() && frames == []
      modifies this, alloc, alloc.busy
      ensures alloc.busy == old(alloc.busy) && Valid() && Stacks() == old(Stacks())
      ensures Reached(E.EmitStmt(old(View()), Frame(body)), err)
      decreases E.IdleProcs(View()), body, 1
    {
      hide E.OpenFrame, E.CloseFrame, E.EmitBody;
      err := OpenFrame();
      if err.Some? { return; }
      assert E.IdleProcs(View()) == old(E.IdleProcs(View()));
      err := Statements(body);
      if err.Some? {
        frames := frames[..|frames| - 1];
        return;
      }
      err := CloseFrame();
    }

    method LowerCall(name: string, args: seq<Arg>) returns (err: Option<LangError>)
      requires Valid()
      modifies this, alloc, alloc.busy
      ensures alloc.busy == old(alloc.busy) && Valid() && Stacks() == old(Stacks())
      ensures Reached(E.EmitCall(old(View()), name, args), err)
      decreases E.IdleProcs(View()), args, 0
    {
      hide E.EmitBody, BindArgs, E.EnterExpansion, E.ExitExpansion;
      if name in env.fns || name !in procs { return Some(Rejected); }
      if name in activeProcs { return Some(Recursion(name)); }
      var p := procs[name];
      var bindings := BindArgs(name, p.params, args, env);
      if bindings.Err? { return Some(bindings.error); }
      err := EnterExpansion();
      if err.Some? { return; }
      var saved := env;
      env := ChildValues(env, bindings.value);
      activeProcs := activeProcs + [name];
      assert View() == E.Inlined(E.EnterExpansion(old(View())).value, name, bindings.value);
      assert name in old(E.IdleProcs(View())) && name !in E.IdleProcs(View());
      assert E.IdleProcs(View()) < old(E.IdleProcs(View()));
      err := Statements(p.body);
      env := saved;
      activeProcs := activeProcs[..|activeProcs| - 1];
      ExitExpansion();
    }

    static lemma NoMore(e: E.Emitter, body: seq<Stmt>)
      requires e.Valid()
      ensures E.EmitRepeat(e, 0, body) == Ok(e)
    {
    }

    static lemma OneMore(e: E.Emitter, k: nat, body: seq<Stmt>)
      requires e.Valid() && k > 0
      ensures E.EmitRepeat(e, k, body)
           == match E.EnterExpansion(e)
              case Err(x) => Err(x)
              case Ok(e1) =>
                match E.EmitBody(e1, body)
                case Err(x) => Err(x)
                case Ok(e2) => E.EmitRepeat(E.ExitExpansion(e2), k - 1, body)
    {
      hide E.EnterExpansion, E.ExitExpansion, E.EmitBody;
    }

    method LowerRepeat(count: Expr, body: seq<Stmt>) returns (err: Option<LangError>)
      requires Valid()
      modifies this, alloc, alloc.busy
      ensures alloc.busy == old(alloc.busy) && Valid() && Stacks() == old(Stacks())
      ensures Reached(E.EmitStmt(old(View()), Repeat(count, body)), err)
      decreases E.IdleProcs(View()), body, 2
    {
      hide E.EmitBody, E.EnterExpansion, E.ExitExpansion, EvalInt, E.EmitRepeat;
      var n := EvalInt(count, env);
      if n.Err? { return Some(n.error); }
      if !(0 <= n.value <= E.MAX_UNROLL) { return Some(Rejected); }
      NoMore(View(), body);
      for i := 0 to n.value
        invariant alloc.busy == old(alloc.busy) && Valid() && Stacks() == old(Stacks())
        invariant E.EmitRepeat(old(View()), n.value, body) == E.EmitRepeat(View(), n.value - i, body)
      {
        OneMore(View(), n.value - i, body);
        err := EnterExpansion();
        if err.Some? { return; }
        assert E.IdleProcs(View()) == old(E.IdleProcs(View()));
        err := Statements(body);
        ExitExpansion();
        if err.Some? { return; }
      }
      NoMore(View(), body);
      return None;
    }

    // ----- programs -----

    method FlushTrailers() returns (err: Option<LangError>)
      requires Valid()
      modifies this
      ensures Valid()
      ensures Reached(E.PushTrailers(old(View()).(trailers := []), old(trailers)), err)
    {
      hide E.HaltLine;
      var all := trailers;
      trailers := [];
      ghost var e0 := View();
      assert all[0..] == all;
      for i := 0 to |all|
        invariant Valid()
        invariant E.PushTrailers(e0, all) == E.PushTrailers(View(), all[i..])
      {
        assert all[i..][0] == all[i] && all[i..][1..] == all[i + 1..];
        err := Push(Label(all[i].target));
        if err.Some? { return; }
        err := Push(E.HaltLine(all[i].code));
        if err.Some? { return; }
      }
      return None;
    }

    method Test(stmts: seq<Stmt>) returns (err: Option<LangError>)
      requires Valid()
      modifies this, alloc, alloc.busy
      ensures alloc.busy == old(alloc.busy) && Valid()
      ensures Reached(E.EmitTest(old(View()), stmts), err)
    {
      hide E.EmitBody, E.PushTrailers;
      err := Push(E.PROLOGUE[0]);
      if err.Some? { return; }
      err := Push(E.PROLOGUE[1]);
      if err.Some? { return; }
      err := Statements(stmts);
      if err.Some? { return; }
      err := FlushTrailers();
    }
  }
}

/** The driver as the compiler runs it. */
module CompilerDriver {
  import opened Prelude
  import opened Text
  import opened Asm
  import opened Ast
  import opened ConstEval
  import opened Driver
  import Emit
  import Lowering

  /** Installs the `fn`s, checks the `proc`s, resolves the constants, and emits the one test. */
  method LowerModule(m: Module) returns (r: Result<string, LangError>)
    ensures r == LowerText(m)
  {
    hide Emit.EmitTest, Eval, Reserved, Emit.ProcTable, Halts, InstallFns, ResolveConsts, ProcsLegal;
    var fns := InstallLoop(m.fns);
    if fns.Err? { return Err(fns.error); }
    var legal := CheckProcs(m.procs, fns.value.fns);
    if !legal { return Err(Rejected); }
    var env := ConstsLoop(m.consts, fns.value);
    if env.Err? { return Err(env.error); }
    if |m.tests| != 1 { return Err(Rejected); }
    if !Halts(m.tests[0].stmts) { return Err(Rejected); }
    var emitter := new Lowering.Emitter(Emit.ProcTable(m.procs), env.value);
    var err := emitter.Test(m.tests[0].stmts);
    if err.Some? { return Err(err.value); }
    r := Ok(emitter.asm);
  }

  method InstallLoop(fns: seq<FnDef>) returns (r: Result<Env, LangError>)
    ensures r == InstallFns(fns, EMPTY_ENV)
  {
    hide Reserved;
    var env := EMPTY_ENV;
    assert fns[0..] == fns;
    for i := 0 to |fns|
      invariant InstallFns(fns, EMPTY_ENV) == InstallFns(fns[i..], env)
    {
      var f := fns[i];
      assert fns[i..][0] == f && fns[i..][1..] == fns[i + 1..];
      if Reserved(f.name) { return Err(Rejected); }
      if f.name in env.fns { return Err(Rejected); }
      env := env.(fns := env.fns[f.name := f]);
    }
    r := Ok(env);
  }

  method CheckProcs(procs: seq<ProcDef>, fns: map<string, FnDef>) returns (legal: bool)
    ensures legal <==> ProcsLegal(procs, fns)
  {
    hide Reserved;
    for i := 0 to |procs|
      invariant ProcsLegal(procs[..i], fns)
    {
      var name := procs[i].name;
      if Reserved(name) || name in fns { return false; }
      if exists j :: 0 <= j < i && procs[j].name == name { return false; }
      assert procs[..i + 1] == procs[..i] + [procs[i]];
    }
    assert procs[..|procs|] == procs;
    legal := true;
  }

  method ConstsLoop(consts: seq<Const>, start: Env) returns (r: Result<Env, LangError>)
    ensures r == ResolveConsts(consts, start)
  {
    hide Eval;
    var env := start;
    assert consts[0..] == consts;
    for i := 0 to |consts|
      invariant ResolveConsts(consts, start) == ResolveConsts(consts[i..], env)
    {
      var c := consts[i];
      assert consts[i..][0] == c && consts[i..][1..] == consts[i + 1..];
      if c.name in env.consts { return Err(Rejected); }
      var v := Eval(c.value, env);
      if v.Err? { return Err(v.error); }
      env := env.(consts := env.consts[c.name := v.value]);
    }
    r := Ok(env);
  }
}
