/** What the expansion of a statement reaches: the names it binds and the lines it copies from the source. */
module Extent {
  import opened Prelude
  import opened Text
  import opened Ast
  import opened ConstEval
  import opened Interp

  /** A raw instruction, a `config` or a `fail`, in the words of the source. */
  datatype Quote = Quote(mnemonic: Word, operands: seq<Lexeme>)

  datatype Reach = Reach(names: set<string>, quotes: set<Quote>) {
    function With(more: Reach): Reach { Reach(names + more.names, quotes + more.quotes) }
  }

  const NOTHING := Reach({}, {})

  function Bound(name: Option<string>): set<string> { if name.Some? then {name.value} else {} }

  function BoundBy(targets: seq<RecvTarget>): set<string>
    decreases |targets|
  {
    if targets == [] then {} else
    (match targets[0] case Bind(name) => {name} case Discard => {}) + BoundBy(targets[1..])
  }

  function SimpleReach(s: Stmt): Reach {
    match s
    case Fail(code) => Reach({}, {Quote("halt", [code])})
    case Raw(mnemonic, operands) => Reach({}, {Quote(mnemonic, operands)})
    case Config(keywords) => Reach({}, {Quote("set_config", keywords)})
    case Recv(targets) => Reach(BoundBy(targets), {})
    case WaitState(bind) => Reach(Bound(bind), {})
    case _ => NOTHING
  }

  function StmtReach(c: Context, s: Stmt): Reach
    decreases Interp.Idle(c), s, 0
  {
    match s
    case Frame(body) =>
      assert Interp.Idle(c.(inFrame := true)) == Interp.Idle(c);
      BodyReach(c.(inFrame := true), body)
    case CallProc(name, args) => CallReach(c, name, args)
    case Repeat(count, body) =>
      (match EvalInt(count, c.env)
       case Err(_) => NOTHING
       case Ok(n) => if n <= 0 then NOTHING else BodyReach(c, body))
    case _ => SimpleReach(s)
  }

  function BodyReach(c: Context, body: seq<Stmt>): Reach
    decreases Interp.Idle(c), body, 0
  {
    if body == [] then NOTHING else StmtReach(c, body[0]).With(BodyReach(c, body[1..]))
  }

  /** A call reaches what the body of the `proc` does, under the arguments it gets. */
  function CallReach(c: Context, name: string, args: seq<Arg>): Reach
    decreases Interp.Idle(c), args, 0
  {
    if name in c.env.fns || name !in c.procs || name in c.active then NOTHING else
    var p := c.procs[name];
    match BindArgs(name, p.params, args, c.env)
    case Err(_) => NOTHING
    case Ok(bindings) =>
      var c' := c.(env := ChildValues(c.env, bindings), active := c.active + [name]);
      assert name in Interp.Idle(c) && name !in Interp.Idle(c') && Interp.Idle(c') < Interp.Idle(c);
      BodyReach(c', p.body)
  }
}

/** Which names are still bound after a scope has closed. */
module Names {
  import opened Prelude
  import opened Ast
  import opened ConstEval
  import opened Registers
  import opened Emit
  import opened Interp
  import opened Correct
  import opened Ownership
  import opened Extent
  import P = Printer
  import C = Crc8

  /**
   * From `p` to `p'` the names in `names`, and no others, were bound: each of them that still is,
   * is a name of the innermost scope.
   */
  ghost predicate Binds(p: Pool, p': Pool, names: set<string>) {
    && p.scopes != [] && |p'.scopes| == |p.scopes|
    && p'.scopes[..|p.scopes| - 1] == p.scopes[..|p.scopes| - 1]
    && (forall n :: n in Top(p).names ==> n in Top(p').names)
    && (forall n :: n in Top(p').names ==> n in Top(p).names || n in names)
    && (forall n :: n !in names ==> (n in p'.bindings <==> n in p.bindings))
    && (forall n :: n !in names && n in p.bindings ==> p'.bindings[n] == p.bindings[n])
    && (forall n :: n in names && n in p'.bindings ==> n in Top(p').names)
  }

  lemma BindsSelf(p: Pool)
    requires p.scopes != []
    ensures Binds(p, p, {})
  {
  }

  lemma BindsTrans(p: Pool, q: Pool, r: Pool, a: set<string>, b: set<string>)
    requires Binds(p, q, a) && Binds(q, r, b)
    ensures Binds(p, r, a + b)
  {
    hide Top;
  }

  lemma LendBinds(p: Pool, name: Option<string>)
    requires p.Valid() && Lend(p, name).Some?
    ensures Binds(p, Lend(p, name).value.pool, Bound(name))
  {
    hide LowestFree;
  }

  lemma FreeBinds(p: Pool, reg: nat)
    requires p.scopes != []
    ensures Binds(p, Free(p, reg), {})
  {
    hide Without;
  }

  lemma {:induction false} ReserveAllBinds(p: Pool, deferred: seq<Deferred>)
    requires p.Valid() && forall d :: d in deferred ==> 1 <= d.reg < NUM_REGS
    ensures var q := ReserveAll(p, deferred);
            && |q.scopes| == |p.scopes| && q.scopes[..|p.scopes| - 1] == p.scopes[..|p.scopes| - 1]
            && Top(q).names == Top(p).names && q.bindings == p.bindings
    decreases |deferred|
  {
    if deferred != [] {
      ReserveAllBinds(Reserve(p, deferred[0].reg), deferred[1..]);
    }
  }

  /** Closing a scope takes every name bound since it opened, wherever that was. */
  lemma ExitForgets(p: Pool, p2: Pool, names: set<string>)
    requires p.scopes != [] && Binds(Enter(p), p2, names)
    ensures Exit(p2).bindings == p.bindings - names && Exit(p2).scopes == p.scopes
  {
    hide Forget, Released;
    assert Enter(p).scopes[..|p.scopes|] == p.scopes;
    ForgetOnly(p2.bindings, Top(p2).names);
    assert Top(Enter(p)).names == [];
    assert Exit(p2).bindings == p.bindings - names;
  }

  /** What is left of it in the scope around it. */
  lemma ClosedBinds(p: Pool, q: Pool, names: set<string>)
    requires p.scopes != [] && q.bindings == p.bindings - names && |q.scopes| == |p.scopes|
    requires q.scopes[..|p.scopes| - 1] == p.scopes[..|p.scopes| - 1] && Top(q).names == Top(p).names
    ensures Binds(p, q, names)
  {
  }

  // ----- statements without a body -----

  lemma RecvOneBinds(e: Emitter, target: RecvTarget, e': Emitter)
    requires e.Valid() && RecvOne(e, target) == Ok(e')
    ensures Binds(e.pool, e'.pool, Bound(NameOf(target)))
  {
    hide Lend, Free, Binds, P.Write;
    var t := TakeReg(e, NameOf(target)).value;
    LendBinds(e.pool, NameOf(target));
    if target.Discard? {
      FreeBinds(t.pool, t.reg);
      BindsTrans(e.pool, t.pool, e'.pool, Bound(None), {});
      assert Bound(None) + {} == Bound(NameOf(target));
    }
  }

  lemma {:induction false} RecvAllBinds(e: Emitter, targets: seq<RecvTarget>, e': Emitter)
    requires e.Valid() && RecvAll(e, targets) == Ok(e')
    ensures Binds(e.pool, e'.pool, BoundBy(targets))
    decreases |targets|
  {
    hide RecvOne, Binds;
    BindsSelf(e.pool);
    if targets != [] {
      var e1 := RecvOne(e, targets[0]).value;
      RecvOneBinds(e, targets[0], e1);
      RecvAllBinds(e1, targets[1..], e');
      BindsTrans(e.pool, e1.pool, e'.pool, Bound(NameOf(targets[0])), BoundBy(targets[1..]));
    }
  }

  lemma PollAgainBinds(e: Emitter, loop: string, resp: nat, e': Emitter)
    requires e.Valid() && PollAgain(e, loop, resp) == Ok(e')
    ensures Binds(e.pool, e'.pool, {})
  {
    hide Alloc, Free, Binds, P.Write;
    var k := Alloc(e.pool).value;
    LendBinds(e.pool, None);
    FreeBinds(k.pool, k.reg);
    BindsTrans(e.pool, k.pool, e'.pool, Bound(None), {});
    assert Bound(None) + {} == {};
  }

  lemma WaitStateBinds(e: Emitter, bind: Option<string>, e': Emitter)
    requires e.Valid() && LowerWaitState(e, bind) == Ok(e')
    ensures Binds(e.pool, e'.pool, Bound(bind))
  {
    hide Lend, Free, Binds, PollStart, PollAgain, P.Write, WaitLabel, GetLine;
    var loop := WaitLabel(e.gensym);
    var e1 := PollStart(e, loop).value;
    var resp := TakeReg(e1, bind).value;
    LendBinds(e.pool, bind);
    var e2 := Push(e1.(pool := resp.pool), GetLine(resp.reg)).value;
    var e3 := PollAgain(e2, loop, resp.reg).value;
    PollAgainBinds(e2, loop, resp.reg, e3);
    BindsTrans(e.pool, resp.pool, e3.pool, Bound(bind), {});
    if bind.None? {
      FreeBinds(e3.pool, resp.reg);
      BindsTrans(e.pool, e3.pool, e'.pool, Bound(bind) + {}, {});
    }
    assert Bound(bind) + {} == Bound(bind) && Bound(bind) + {} + {} == Bound(bind);
  }

  lemma ExpectBinds(e: Emitter, elseCode: Expr, e': Emitter)
    requires e.Valid() && LowerExpect(e, elseCode) == Ok(e')
    ensures Binds(e.pool, e'.pool, {})
  {
    hide Alloc, RecvOne, EvalByte, Binds, P.Write, FailLabel;
    var e1 := RecvOne(e, Discard).value;
    RecvOneBinds(e, Discard, e1);
    LendBinds(e1.pool, None);
    BindsTrans(e.pool, e1.pool, e'.pool, Bound(None), Bound(None));
    assert Bound(None) + Bound(None) == {};
  }

  lemma {:induction false} PutKeepsPool(e: Emitter, bytes: seq<byte>, e': Emitter)
    requires e.Valid() && PushBytes(e, bytes) == Ok(e')
    ensures e'.pool == e.pool
    decreases |bytes|
  {
    hide P.Write;
    if bytes != [] {
      PutKeepsPool(Push(e, PutLine(bytes[0])).value, bytes[1..], e');
    }
  }

  lemma SimpleBinds(e: Emitter, s: Stmt, e': Emitter)
    requires !s.Frame? && !s.CallProc? && !s.Repeat?
    requires e.Valid() && EmitSimple(e, s) == Ok(e')
    ensures Binds(e.pool, e'.pool, SimpleReach(s).names)
  {
    hide Binds, PushBytes, RecvAll, LowerWaitState, LowerExpect, EvalBytes, EvalSends, P.Write, P.ReadAll;
    BindsSelf(e.pool);
    match s
    case Send(bytes, appendCrc) =>
      var b := EvalBytes(bytes, e.env).value;
      PutKeepsPool(e, if appendCrc then b + [C.Crc8(b)] else b, e');
    case CrcRegion(sends) =>
      var b := EvalSends(sends, e.env).value;
      PutKeepsPool(e, b + [C.Crc8(b)], e');
    case Recv(targets) => RecvAllBinds(e, targets, e');
    case WaitState(bind) => WaitStateBinds(e, bind, e');
    case Expect(elseCode) => ExpectBinds(e, elseCode, e');
    case _ =>
  }

  // ----- frames and expansions -----

  lemma OpenPool(e: Emitter, e1: Emitter)
    requires e.Valid() && OpenFrame(e) == Ok(e1)
    ensures e1.pool == Enter(e.pool) && e1.frames != []
  {
    hide P.Write;
  }

  lemma {:induction false} VerdictsPool(e: Emitter, deferred: seq<Deferred>, e': Emitter)
    requires e.Valid() && PushVerdicts(e, deferred) == Ok(e')
    ensures e'.pool == e.pool
    decreases |deferred|
  {
    hide P.Write;
    if deferred != [] {
      var d := deferred[0];
      var e1 := Push(e, BnezLine(d)).value;
      VerdictsPool(e1.(trailers := e1.trailers + [Trailer(d.target, d.code)]), deferred[1..], e');
    }
  }

  lemma ClosePool(e: Emitter, e': Emitter)
    requires e.Valid() && e.frames != [] && CloseFrame(e) == Ok(e')
    ensures e'.pool == Exit(e.pool)
  {
    hide Exit, P.Write, PushVerdicts;
    var top := |e.frames| - 1;
    var e1 := Push(e.(frames := e.frames[..top]), CS_DEASSERT).value;
    VerdictsPool(e1, e.frames[top], PushVerdicts(e1, e.frames[top]).value);
  }

  lemma ExpansionBinds(p: Pool, e: Emitter, names: set<string>)
    requires p.scopes != [] && e.Valid() && Binds(Enter(p), e.pool, names)
    ensures ExitExpansion(e).pool.bindings == p.bindings - names
    ensures Binds(p, ExitExpansion(e).pool, names)
  {
    hide Exit, ReserveAll, Binds;
    ExitForgets(p, e.pool, names);
    if e.frames != [] {
      ReserveAllBinds(Exit(e.pool), e.frames[|e.frames| - 1]);
    }
    ClosedBinds(p, ExitExpansion(e).pool, names);
  }

  // ----- every statement -----

  lemma {:induction false} StmtBinds(e: Emitter, s: Stmt, e': Emitter)
    requires e.Valid() && EmitStmt(e, s) == Ok(e')
    ensures Binds(e.pool, e'.pool, StmtReach(ContextOf(e), s).names)
    decreases IdleProcs(e), s, 0
  {
    hide Binds, EmitSimple, OpenFrame, CloseFrame, EvalInt, EmitBody, EmitRepeat, EmitCall, BodyReach, CallReach,
         SimpleReach, LegalInFrame;
    match s
    case Frame(body) => FrameNames(e, body, e');
    case CallProc(name, args) => CallNames(e, name, args, e');
    case Repeat(count, body) => RepeatNames(e, EvalInt(count, e.env).value, body, e');
    case _ => SimpleBinds(e, s, e');
  }

  /** A closed frame takes with it every name bound while it was open. */
  lemma {:induction false} FrameNames(e: Emitter, body: seq<Stmt>, e': Emitter)
    requires e.Valid() && EmitStmt(e, Frame(body)) == Ok(e')
    ensures e'.pool.bindings == e.pool.bindings - StmtReach(ContextOf(e), Frame(body)).names
    ensures Binds(e.pool, e'.pool, StmtReach(ContextOf(e), Frame(body)).names)
    decreases IdleProcs(e), body, 1
  {
    hide Binds, OpenFrame, CloseFrame, EmitBody, BodyReach, Exit, Enter;
    var e1 := OpenFrame(e).value;
    OpenPool(e, e1);
    assert IdleProcs(e1) == IdleProcs(e);
    var e2 := EmitBody(e1, body).value;
    BodyBinds(e1, body, e2);
    assert ContextOf(e1) == ContextOf(e).(inFrame := true);
    var names := BodyReach(ContextOf(e1), body).names;
    ExitForgets(e.pool, e2.pool, names);
    ClosePool(e2, e');
    ClosedBinds(e.pool, e'.pool, names);
  }

  lemma {:induction false} BodyBinds(e: Emitter, body: seq<Stmt>, e': Emitter)
    requires e.Valid() && EmitBody(e, body) == Ok(e')
    ensures Binds(e.pool, e'.pool, BodyReach(ContextOf(e), body).names)
    decreases IdleProcs(e), body, 0
  {
    hide Binds, EmitStmt, StmtReach;
    BindsSelf(e.pool);
    if body != [] {
      var e1 := EmitStmt(e, body[0]).value;
      assert IdleProcs(e1) == IdleProcs(e);
      assert ContextOf(e1) == ContextOf(e);
      StmtBinds(e, body[0], e1);
      BodyBinds(e1, body[1..], e');
      BindsTrans(e.pool, e1.pool, e'.pool, StmtReach(ContextOf(e), body[0]).names,
                 BodyReach(ContextOf(e), body[1..]).names);
    }
  }

  /** So does a call, */
  lemma {:induction false} CallNames(e: Emitter, name: string, args: seq<Arg>, e': Emitter)
    requires e.Valid() && EmitCall(e, name, args) == Ok(e')
    ensures e'.pool.bindings == e.pool.bindings - CallReach(ContextOf(e), name, args).names
    ensures Binds(e.pool, e'.pool, CallReach(ContextOf(e), name, args).names)
    decreases IdleProcs(e), args, 0
  {
    hide Binds, EmitBody, BindArgs, BodyReach, ExitExpansion, Enter;
    var p := e.procs[name];
    var bindings := BindArgs(name, p.params, args, e.env).value;
    var e1 := EnterExpansion(e).value;
    var e2 := Inlined(e1, name, bindings);
    assert name in IdleProcs(e) && name !in IdleProcs(e2) && IdleProcs(e2) < IdleProcs(e);
    var e3 := EmitBody(e2, p.body).value;
    BodyBinds(e2, p.body, e3);
    ExpansionBinds(e.pool, e3.(env := e.env, active := e.active), BodyReach(ContextOf(e2), p.body).names);
  }

  /** and each iteration of a `repeat`. */
  lemma {:induction false} RepeatNames(e: Emitter, n: nat, body: seq<Stmt>, e': Emitter)
    requires e.Valid() && EmitRepeat(e, n, body) == Ok(e')
    ensures var names := if n == 0 then {} else BodyReach(ContextOf(e), body).names;
            e'.pool.bindings == e.pool.bindings - names && Binds(e.pool, e'.pool, names)
    decreases IdleProcs(e), body, 1, n
  {
    hide Binds, EmitBody, BodyReach, ExitExpansion, Enter;
    if n == 0 {
      BindsSelf(e.pool);
    } else {
      var e1 := EnterExpansion(e).value;
      assert IdleProcs(e1) == IdleProcs(e);
      var e2 := EmitBody(e1, body).value;
      BodyBinds(e1, body, e2);
      var names := BodyReach(ContextOf(e), body).names;
      assert ContextOf(e1) == ContextOf(e);
      ExpansionBinds(e.pool, e2, names);
      var e3 := ExitExpansion(e2);
      assert IdleProcs(e3) == IdleProcs(e);
      assert ContextOf(e3) == ContextOf(e);
      RepeatNames(e3, n - 1, body, e');
      if n > 1 {
        BindsTrans(e.pool, e3.pool, e'.pool, names, names);
        assert names + names == names;
      } else {
        BindsTrans(e.pool, e3.pool, e'.pool, names, {});
        assert names + {} == names;
      }
    }
  }

  /**
   * The names visible before a frame are bound as before after it if and only if none of them was
   * bound again anywhere in it, in a proc it calls, or in an iteration it runs.
   */
  lemma FrameRestoresNames(e: Emitter, body: seq<Stmt>, e': Emitter)
    requires e.Valid() && EmitStmt(e, Frame(body)) == Ok(e')
    ensures e'.pool.bindings == e.pool.bindings
       <==> forall name :: name in StmtReach(ContextOf(e), Frame(body)).names ==> name !in e.pool.bindings
  {
    hide EmitStmt, StmtReach;
    FrameNames(e, body, e');
  }

  /** The same for a call and for a `repeat`. */
  lemma ExpansionRestoresNames(e: Emitter, s: Stmt, e': Emitter)
    requires e.Valid() && (s.CallProc? || s.Repeat?) && EmitStmt(e, s) == Ok(e')
    ensures e'.pool.bindings == e.pool.bindings
       <==> forall name :: name in StmtReach(ContextOf(e), s).names ==> name !in e.pool.bindings
  {
    hide EmitCall, EmitRepeat, BodyReach, CallReach, EvalInt, LegalInFrame;
    match s
    case CallProc(name, args) => CallNames(e, name, args, e');
    case Repeat(count, body) => RepeatNames(e, EvalInt(count, e.env).value, body, e');
  }

  // ----- two programs that lose a name -----

  const AGAIN := Recv([RecvTarget.Bind("a")])

  /** Some register is free, and the budgets are far away. */
  predicate Roomy(e: Emitter) {
    e.Valid() && |e.lines| < 100 && e.expansions <= 1 && (!e.pool.busy[1] || !e.pool.busy[2])
  }

  lemma AgainEmitted(e: Emitter)
    requires Roomy(e)
    ensures var r := EmitStmt(e, AGAIN);
            && r.Ok? && |r.value.lines| == |e.lines| + 1 && r.value.expansions == e.expansions
            && r.value.frames == e.frames && "a" in r.value.pool.bindings
            && (!e.pool.busy[1] && !e.pool.busy[2] ==> !r.value.pool.busy[1] || !r.value.pool.busy[2])
  {
    hide Alloc, P.Write, GetLine;
    assert Alloc(e.pool).Some?;
    assert [RecvTarget.Bind("a")][1..] == [];
    var t := BindName(e.pool, "a").value;
    assert Lend(e.pool, Some("a")) == Some(t);
    var e1 := Push(e.(pool := t.pool), GetLine(t.reg)).value;
    assert RecvOne(e, RecvTarget.Bind("a")) == Ok(e1);
    assert RecvAll(e, [RecvTarget.Bind("a")]) == RecvAll(e1, []);
    assert EmitStmt(e, AGAIN) == Ok(e1);
  }

  lemma AgainReached(c: Context)
    ensures "a" in BodyReach(c, [AGAIN]).names && "a" in BodyReach(c, [Repeat(IntLit(1), [AGAIN])]).names
  {
    assert [AGAIN][1..] == [] && [Repeat(IntLit(1), [AGAIN])][1..] == [];
    assert "a" in BoundBy([RecvTarget.Bind("a")]);
    assert EvalInt(IntLit(1), c.env) == Ok(1);
    assert "a" in StmtReach(c, AGAIN).names;
    assert "a" in BodyReach(c, [AGAIN]).names;
    assert "a" in StmtReach(c, Repeat(IntLit(1), [AGAIN])).names;
  }

  lemma AgainInBody(e: Emitter)
    requires Roomy(e)
    ensures EmitBody(e, [AGAIN]) == EmitStmt(e, AGAIN)
  {
    hide EmitStmt;
    AgainEmitted(e);
    assert [AGAIN][1..] == [];
  }

  lemma OnceEmitted(e: Emitter)
    requires Roomy(e) && e.frames == [[]] && e.expansions == 0
    ensures var s := Repeat(IntLit(1), [AGAIN]);
            EmitBody(e, [s]).Ok? && EmitBody(e, [s]).value.frames == [[]] && |EmitBody(e, [s]).value.lines| < 102
  {
    hide EmitBody, Exit, EmitStmt;
    var e1 := EnterExpansion(e).value;
    AgainInBody(e1);
    AgainEmitted(e1);
    var e2 := EmitBody(e1, [AGAIN]).value;
    var e3 := ExitExpansion(e2);
    assert EmitRepeat(e3, 0, [AGAIN]) == Ok(e3);
    assert EmitRepeat(e, 1, [AGAIN]) == Ok(e3);
    OnceOnly(e, e3);
  }

  lemma OnceOnly(e: Emitter, e': Emitter)
    requires e.Valid() && e.frames == [[]] && EmitRepeat(e, 1, [AGAIN]) == Ok(e')
    ensures EmitBody(e, [Repeat(IntLit(1), [AGAIN])]) == Ok(e')
  {
    hide EmitRepeat;
    var s := Repeat(IntLit(1), [AGAIN]);
    assert EvalInt(IntLit(1), e.env) == Ok(1);
    assert EmitStmt(e, s) == Ok(e');
    assert [s][1..] == [];
    assert EmitBody(e', []) == Ok(e');
  }

  /** Closing a frame without verdicts succeeds. */
  lemma FrameEmitted(e: Emitter, body: seq<Stmt>)
    requires e.Valid() && e.frames == [] && |e.lines| < 100 && OpenFrame(e).Ok?
    requires EmitBody(OpenFrame(e).value, body).Ok?
    requires EmitBody(OpenFrame(e).value, body).value.frames == [[]]
    requires |EmitBody(OpenFrame(e).value, body).value.lines| < 110
    ensures EmitStmt(e, Frame(body)).Ok?
  {
    hide EmitBody, Exit, OpenFrame, P.Write;
    var e2 := EmitBody(OpenFrame(e).value, body).value;
    assert CloseFrame(e2).Ok?;
  }

  /**
   * For two: a name bound before a frame and again in it, or in an iteration of a `repeat` in it,
   * is not bound after the frame.
   */
  lemma ShadowedNameLost(procs: map<string, ProcDef>, env: Env)
    ensures var outer := EmitStmt(Start(true, procs, env), AGAIN);
            && outer.Ok? && "a" in outer.value.pool.bindings
            && (forall body :: body == [AGAIN] || body == [Repeat(IntLit(1), [AGAIN])] ==>
                  && EmitStmt(outer.value, Frame(body)).Ok?
                  && "a" !in EmitStmt(outer.value, Frame(body)).value.pool.bindings)
  {
    hide EmitStmt, EmitBody, Exit, BodyReach, P.Write;
    var start := Start(true, procs, env);
    AgainEmitted(start);
    var e := EmitStmt(start, AGAIN).value;
    var e1 := OpenFrame(e).value;
    AgainInBody(e1);
    AgainEmitted(e1);
    OnceEmitted(e1);
    AgainReached(ContextOf(e).(inFrame := true));
    forall body | body == [AGAIN] || body == [Repeat(IntLit(1), [AGAIN])]
      ensures EmitStmt(e, Frame(body)).Ok? && "a" !in EmitStmt(e, Frame(body)).value.pool.bindings
    {
      FrameEmitted(e, body);
      FrameNames(e, body, EmitStmt(e, Frame(body)).value);
    }
  }
}
