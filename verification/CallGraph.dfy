/** A recursion error always names a callable on a cycle of the call graph. */
module CallGraph {
  import opened Prelude
  import opened Asm
  import opened Ast
  import opened ConstEval
  import opened Registers
  import opened Emit
  import opened Driver
  import C = Crc8

  datatype Callables = Callables(fns: map<string, FnDef>, procs: map<string, ProcDef>)

  // ----- the call graph -----

  /** The `fn`s an expression calls at its own site. */
  function Calls(e: Expr): set<string> {
    match e
    case IntLit(_) => {}
    case Name(_) => {}
    case BytesLit(elems) => ElemCalls(elems)
    case Call(func, args) => {func} + ArgCalls(args)
    case Binary(_, lhs, rhs) => Calls(lhs) + Calls(rhs)
  }

  function ElemCalls(elems: seq<Expr>): set<string> {
    if elems == [] then {} else Calls(elems[0]) + ElemCalls(elems[1..])
  }

  function ArgCalls(args: seq<Arg>): set<string> {
    if args == [] then {} else
    assert args decreases to args[0];
    assert args[0] decreases to args[0].value;
    Calls(args[0].value) + ArgCalls(args[1..])
  }

  function DefaultCalls(params: seq<Param>): set<string> {
    if params == [] then {} else
    (if params[0].default.Some? then Calls(params[0].default.value) else {}) + DefaultCalls(params[1..])
  }

  function StmtCalls(s: Stmt): set<string> {
    match s
    case Send(bytes, _) => Calls(bytes)
    case CrcRegion(sends) => ElemCalls(sends)
    case Expect(elseCode) => Calls(elseCode)
    case CallProc(name, args) => {name} + ArgCalls(args)
    case Repeat(count, body) => Calls(count) + BodyCalls(body)
    case Frame(body) => BodyCalls(body)
    case _ => {}
  }

  function BodyCalls(body: seq<Stmt>): set<string> {
    if body == [] then {} else StmtCalls(body[0]) + BodyCalls(body[1..])
  }

  function FnCalls(f: FnDef): set<string> { Calls(f.body) + DefaultCalls(f.params) }

  function ProcCalls(p: ProcDef): set<string> { BodyCalls(p.body) + DefaultCalls(p.params) }

  /** `a` calls `b` from its body or from a default of one of its parameters. */
  predicate Edge(c: Callables, a: string, b: string) {
    (a in c.fns && b in FnCalls(c.fns[a])) || (a in c.procs && b in ProcCalls(c.procs[a]))
  }

  ghost predicate Path(c: Callables, path: seq<string>) {
    forall i :: 0 <= i < |path| - 1 ==> Edge(c, path[i], path[i + 1])
  }

  ghost predicate IsCycle(c: Callables, path: seq<string>) {
    path != [] && Path(c, path) && Edge(c, path[|path| - 1], path[0])
  }

  ghost predicate OnCycle(c: Callables, name: string) {
    exists path: seq<string> :: IsCycle(c, path) && path[0] == name
  }

  /** The last callable in progress calls everything in `calls`. */
  ghost predicate Makes(c: Callables, path: seq<string>, calls: set<string>) {
    path != [] ==> forall b :: b in calls ==> Edge(c, path[|path| - 1], b)
  }

  lemma Closes(c: Callables, path: seq<string>, name: string)
    requires Path(c, path) && Makes(c, path, {name}) && name in path
    ensures OnCycle(c, name)
  {
    hide Edge;
    var i :| 0 <= i < |path| && path[i] == name;
    var cycle := path[i..];
    forall k | 0 <= k < |cycle| - 1 ensures Edge(c, cycle[k], cycle[k + 1]) {
      assert Edge(c, path[i + k], path[i + k + 1]);
    }
    assert IsCycle(c, cycle);
  }

  lemma Extend(c: Callables, path: seq<string>, name: string)
    requires Path(c, path) && Makes(c, path, {name})
    ensures Path(c, path + [name])
  {
    hide Edge;
    var longer := path + [name];
    forall i | 0 <= i < |longer| - 1 ensures Edge(c, longer[i], longer[i + 1]) {
      if i == |path| - 1 {
        assert name in {name};
      }
    }
  }

  lemma MakesFewer(c: Callables, path: seq<string>, more: set<string>, fewer: set<string>)
    requires Makes(c, path, more) && fewer <= more
    ensures Makes(c, path, fewer)
  {
    hide Edge;
  }

  // ----- evaluation -----

  predicate Recursive<T>(r: Result<T, LangError>, name: string) { r == Err(Recursion(name)) }

  /** `env` is in the midst of expanding the calls of a path of the graph, and about to make `calls`. */
  ghost predicate Midway(c: Callables, env: Env, calls: set<string>) {
    env.fns == c.fns && Path(c, env.active) && Makes(c, env.active, calls)
  }

  lemma {:induction false} EvalCycle(c: Callables, e: Expr, env: Env, name: string)
    requires Midway(c, env, Calls(e)) && Recursive(Eval(e, env), name)
    ensures OnCycle(c, name)
    decreases ConstEval.Idle(env), e, 0
  {
    hide Idle, EvalElems, EvalFn, Builtin, IsBuiltin, Xor64, Path, Makes, OnCycle, Edge;
    match e
    case BytesLit(elems) => ElemsCycle(c, elems, env, name);
    case Binary(_, lhs, rhs) =>
      MakesFewer(c, env.active, Calls(e), Calls(lhs));
      MakesFewer(c, env.active, Calls(e), Calls(rhs));
      if Recursive(Eval(lhs, env), name) {
        EvalCycle(c, lhs, env, name);
      } else {
        EvalCycle(c, rhs, env, name);
      }
    case Call(func, args) => CallCycle(c, func, args, env, name);
  }

  lemma BuiltinError(func: string, v: ConstEval.Value)
    requires IsBuiltin(func) && Builtin(func, v).Err?
    ensures Builtin(func, v) == Err(Rejected)
  {
  }

  lemma {:induction false} CallCycle(c: Callables, func: string, args: seq<Arg>, env: Env, name: string)
    requires Midway(c, env, {func} + ArgCalls(args)) && Recursive(Eval(Call(func, args), env), name)
    ensures OnCycle(c, name)
    decreases ConstEval.Idle(env), args, 2
  {
    hide Idle, EvalFn, Builtin, IsBuiltin, Path, Makes, OnCycle, Edge;
    if IsBuiltin(func) {
      assert args decreases to args[0];
      assert args[0] decreases to args[0].value;
      MakesFewer(c, env.active, {func} + ArgCalls(args), Calls(args[0].value));
      if Eval(args[0].value, env).Ok? {
        BuiltinError(func, Eval(args[0].value, env).value);
      }
      EvalCycle(c, args[0].value, env, name);
    } else {
      MakesFewer(c, env.active, {func} + ArgCalls(args), {func});
      if func in env.active {
        Closes(c, env.active, func);
      } else {
        FnCycle(c, func, args, env, name);
      }
    }
  }

  lemma {:induction false} ElemsCycle(c: Callables, elems: seq<Expr>, env: Env, name: string)
    requires Midway(c, env, ElemCalls(elems)) && Recursive(EvalElems(elems, env), name)
    ensures OnCycle(c, name)
    decreases ConstEval.Idle(env), elems, 0
  {
    hide Idle, Eval, Path, Makes, OnCycle, Edge;
    MakesFewer(c, env.active, ElemCalls(elems), Calls(elems[0]));
    MakesFewer(c, env.active, ElemCalls(elems), ElemCalls(elems[1..]));
    if Recursive(Eval(elems[0], env), name) {
      EvalCycle(c, elems[0], env, name);
    } else {
      ElemsCycle(c, elems[1..], env, name);
    }
  }

  /** Expanding `func` extends the path by one. */
  lemma Deeper(c: Callables, env: Env, func: string, bindings: ConstEval.Scope, calls: set<string>)
    requires func in env.fns && Midway(c, env, {func})
    requires calls <= FnCalls(c.fns[func])
    ensures Midway(c, DefaultScope(env, func), calls) && Midway(c, Child(env, func, bindings), calls)
  {
    hide FnCalls, ProcCalls, Path;
    Extend(c, env.active, func);
  }

  lemma {:induction false} FnCycle(c: Callables, func: string, args: seq<Arg>, env: Env, name: string)
    requires func in env.fns && func !in env.active
    requires Midway(c, env, {func} + ArgCalls(args)) && Recursive(EvalFn(func, args, env), name)
    ensures OnCycle(c, name)
    decreases ConstEval.Idle(env), args, 1
  {
    hide Eval, BindGiven, BindDefaults, Path, Makes, OnCycle, Edge;
    var f := env.fns[func];
    assert func in ConstEval.Idle(env) && func !in ConstEval.Idle(DefaultScope(env, func));
    assert ConstEval.Idle(DefaultScope(env, func)) < ConstEval.Idle(env);
    MakesFewer(c, env.active, {func} + ArgCalls(args), {func});
    MakesFewer(c, env.active, {func} + ArgCalls(args), ArgCalls(args));
    var given := BindGiven(f.params, args, 0, false, map[], env);
    if given.Err? {
      GivenCycle(c, f.params, args, 0, false, map[], env, name);
    } else {
      var scope := DefaultScope(env, func);
      Deeper(c, env, func, map[], DefaultCalls(f.params));
      var bindings := BindDefaults(f.params, given.value, scope);
      if bindings.Err? {
        DefaultsCycle(c, f.params, given.value, scope, name);
      } else {
        Deeper(c, env, func, bindings.value, Calls(f.body));
        assert ConstEval.Idle(Child(env, func, bindings.value)) == ConstEval.Idle(scope);
        EvalCycle(c, f.body, Child(env, func, bindings.value), name);
      }
    }
  }

  lemma {:induction false} GivenCycle(c: Callables, params: seq<Param>, args: seq<Arg>, i: nat, seen: bool,
                                      bound: ConstEval.Scope, env: Env, name: string)
    requires Midway(c, env, ArgCalls(args)) && Recursive(BindGiven(params, args, i, seen, bound, env), name)
    ensures OnCycle(c, name)
    decreases ConstEval.Idle(env), args, 0
  {
    hide Idle, Eval, FindParam, Path, Makes, OnCycle, Edge;
    var arg := args[0];
    assert args decreases to arg;
    assert arg decreases to arg.value;
    MakesFewer(c, env.active, ArgCalls(args), Calls(arg.value));
    MakesFewer(c, env.active, ArgCalls(args), ArgCalls(args[1..]));
    var v := Eval(arg.value, env);
    if v.Err? {
      EvalCycle(c, arg.value, env, name);
    } else {
      var p := ParamOf(params, arg, i, seen).value;
      GivenCycle(c, params, args[1..], i + 1, seen || arg.name.Some?, bound[p.name := v.value], env, name);
    }
  }

  lemma {:induction false} DefaultsCycle(c: Callables, params: seq<Param>, bound: ConstEval.Scope, scope: Env, name: string)
    requires Midway(c, scope, DefaultCalls(params)) && Recursive(BindDefaults(params, bound, scope), name)
    ensures OnCycle(c, name)
    decreases ConstEval.Idle(scope), params, 0
  {
    hide Idle, Eval, Path, Makes, OnCycle, Edge;
    var p := params[0];
    MakesFewer(c, scope.active, DefaultCalls(params), DefaultCalls(params[1..]));
    if p.name in bound {
      DefaultsCycle(c, params[1..], bound, scope, name);
    } else {
      assert params decreases to p;
      assert p decreases to p.default;
      MakesFewer(c, scope.active, DefaultCalls(params), Calls(p.default.value));
      var v := Eval(p.default.value, scope);
      if v.Err? {
        EvalCycle(c, p.default.value, scope, name);
      } else {
        DefaultsCycle(c, params[1..], bound[p.name := v.value], scope, name);
      }
    }
  }

  // ----- expansion -----

  /** Between statements no `fn` is being expanded, and the procs in progress form a path. */
  ghost predicate Expanding(c: Callables, e: Emitter, calls: set<string>) {
    && e.Valid() && e.env.fns == c.fns && e.env.active == [] && e.procs == c.procs
    && Path(c, e.active) && Makes(c, e.active, calls)
  }

  lemma TopLevel(c: Callables, env: Env, calls: set<string>)
    requires env.fns == c.fns && env.active == []
    ensures Midway(c, env, calls)
  {
  }

  lemma {:induction false} SendsCycle(c: Callables, sends: seq<Expr>, env: Env, name: string)
    requires env.fns == c.fns && env.active == [] && Recursive(EvalSends(sends, env), name)
    ensures OnCycle(c, name)
    decreases |sends|
  {
    hide Eval, OnCycle, Midway;
    TopLevel(c, env, Calls(sends[0]));
    if Recursive(Eval(sends[0], env), name) {
      EvalCycle(c, sends[0], env, name);
    } else {
      SendsCycle(c, sends[1..], env, name);
    }
  }

  /** Lines, registers and budgets never cause a recursion error. */
  predicate NotRecursion(r: Emitted) { r.Err? ==> !r.error.Recursion? }

  lemma {:induction false} PutError(e: Emitter, bytes: seq<byte>)
    requires e.Valid()
    ensures NotRecursion(PushBytes(e, bytes))
    decreases |bytes|
  {
    if bytes != [] && Push(e, PutLine(bytes[0])).Ok? {
      PutError(Push(e, PutLine(bytes[0])).value, bytes[1..]);
    }
  }

  lemma {:induction false} RecvError(e: Emitter, targets: seq<RecvTarget>)
    requires e.Valid()
    ensures NotRecursion(RecvAll(e, targets))
    decreases |targets|
  {
    hide Alloc, BindName, Free;
    if targets != [] && RecvOne(e, targets[0]).Ok? {
      RecvError(RecvOne(e, targets[0]).value, targets[1..]);
    }
  }

  lemma PollError(e: Emitter, bind: Option<string>)
    requires e.Valid()
    ensures NotRecursion(LowerWaitState(e, bind))
  {
    hide Alloc, TakeReg, Free, GetLine;
  }

  lemma ExpectError(e: Emitter, elseCode: Expr, name: string)
    requires e.Valid() && Recursive(LowerExpect(e, elseCode), name)
    ensures Recursive(Eval(elseCode, e.env), name)
  {
    hide Alloc, Eval, Free, GetLine;
  }

  lemma {:induction false} VerdictsError(e: Emitter, deferred: seq<Deferred>)
    requires e.Valid()
    ensures NotRecursion(PushVerdicts(e, deferred))
    decreases |deferred|
  {
    hide BnezLine;
    if deferred != [] && Push(e, BnezLine(deferred[0])).Ok? {
      var e1 := Push(e, BnezLine(deferred[0])).value;
      VerdictsError(e1.(trailers := e1.trailers + [Trailer(deferred[0].target, deferred[0].code)]), deferred[1..]);
    }
  }

  lemma CloseError(e: Emitter)
    requires e.Valid() && e.frames != []
    ensures NotRecursion(CloseFrame(e))
  {
    hide PushVerdicts, Exit;
    var top := |e.frames| - 1;
    var e0 := e.(frames := e.frames[..top]);
    if Push(e0, CS_DEASSERT).Ok? {
      VerdictsError(Push(e0, CS_DEASSERT).value, e.frames[top]);
    }
  }

  lemma SimpleCycle(c: Callables, e: Emitter, s: Stmt, name: string)
    requires !s.Frame? && !s.CallProc? && !s.Repeat?
    requires Expanding(c, e, StmtCalls(s)) && Recursive(EmitSimple(e, s), name)
    ensures OnCycle(c, name)
  {
    hide Eval, PushBytes, RecvAll, LowerWaitState, LowerExpect, EvalSends, OnCycle, Midway, Path, Makes;
    match s
    case Send(bytes, appendCrc) =>
      TopLevel(c, e.env, Calls(bytes));
      if EvalBytes(bytes, e.env).Ok? {
        var b := EvalBytes(bytes, e.env).value;
        PutError(e, if appendCrc then b + [C.Crc8(b)] else b);
      }
      EvalCycle(c, bytes, e.env, name);
    case CrcRegion(sends) =>
      if EvalSends(sends, e.env).Ok? {
        var b := EvalSends(sends, e.env).value;
        PutError(e, b + [C.Crc8(b)]);
      }
      SendsCycle(c, sends, e.env, name);
    case Recv(targets) => RecvError(e, targets);
    case WaitState(bind) => PollError(e, bind);
    case Expect(elseCode) =>
      TopLevel(c, e.env, Calls(elseCode));
      ExpectError(e, elseCode, name);
      EvalCycle(c, elseCode, e.env, name);
    case _ =>
  }

  lemma {:induction false} StmtCycle(c: Callables, e: Emitter, s: Stmt, name: string)
    requires Expanding(c, e, StmtCalls(s)) && Recursive(EmitStmt(e, s), name)
    ensures OnCycle(c, name)
    decreases IdleProcs(e), s, 0
  {
    hide EmitSimple, CloseFrame, EvalInt, EmitBody, EmitRepeat, EmitCall, OnCycle, Midway, Path, Makes, Edge, Calls;
    match s
    case Frame(body) => FrameCycle(c, e, body, name);
    case CallProc(callee, args) => ProcCycle(c, e, callee, args, name);
    case Repeat(count, body) => UnrollCycle(c, e, count, body, name);
    case _ => SimpleStmt(e, s, name); SimpleCycle(c, e, s, name);
  }

  lemma SimpleStmt(e: Emitter, s: Stmt, name: string)
    requires e.Valid() && !s.Frame? && !s.CallProc? && !s.Repeat? && Recursive(EmitStmt(e, s), name)
    ensures Recursive(EmitSimple(e, s), name)
  {
    hide EmitSimple;
  }

  lemma {:induction false} FrameCycle(c: Callables, e: Emitter, body: seq<Stmt>, name: string)
    requires Expanding(c, e, BodyCalls(body)) && Recursive(EmitStmt(e, Frame(body)), name)
    ensures OnCycle(c, name)
    decreases IdleProcs(e), body, 1
  {
    hide CloseFrame, EmitBody, OnCycle, Path, Makes;
    var e1 := OpenFrame(e).value;
    assert IdleProcs(e1) == IdleProcs(e);
    if EmitBody(e1, body).Ok? {
      CloseError(EmitBody(e1, body).value);
    }
    BodyCycle(c, e1, body, name);
  }

  lemma {:induction false} UnrollCycle(c: Callables, e: Emitter, count: Expr, body: seq<Stmt>, name: string)
    requires Expanding(c, e, Calls(count) + BodyCalls(body)) && Recursive(EmitStmt(e, Repeat(count, body)), name)
    ensures OnCycle(c, name)
    decreases IdleProcs(e), body, 2
  {
    hide Eval, EmitRepeat, OnCycle, Midway, Path, Makes;
    if Recursive(Eval(count, e.env), name) {
      TopLevel(c, e.env, Calls(count));
      EvalCycle(c, count, e.env, name);
    } else {
      MakesFewer(c, e.active, Calls(count) + BodyCalls(body), BodyCalls(body));
      RepeatCycle(c, e, EvalInt(count, e.env).value, body, name);
    }
  }

  lemma {:induction false} BodyCycle(c: Callables, e: Emitter, body: seq<Stmt>, name: string)
    requires Expanding(c, e, BodyCalls(body)) && Recursive(EmitBody(e, body), name)
    ensures OnCycle(c, name)
    decreases IdleProcs(e), body, 0
  {
    hide EmitStmt, OnCycle, Path, Makes;
    MakesFewer(c, e.active, BodyCalls(body), StmtCalls(body[0]));
    MakesFewer(c, e.active, BodyCalls(body), BodyCalls(body[1..]));
    if EmitStmt(e, body[0]).Err? {
      StmtCycle(c, e, body[0], name);
    } else {
      var e1 := EmitStmt(e, body[0]).value;
      assert IdleProcs(e1) == IdleProcs(e);
      BodyCycle(c, e1, body[1..], name);
    }
  }

  lemma {:induction false} ProcCycle(c: Callables, e: Emitter, callee: string, args: seq<Arg>, name: string)
    requires Expanding(c, e, {callee} + ArgCalls(args)) && Recursive(EmitCall(e, callee, args), name)
    ensures OnCycle(c, name)
    decreases IdleProcs(e), args, 0
  {
    hide EmitBody, BindGiven, BindDefaults, OnCycle, Path, Makes, Edge, ExitExpansion;
    MakesFewer(c, e.active, {callee} + ArgCalls(args), {callee});
    if callee in e.active {
      Closes(c, e.active, callee);
    } else {
      var p := e.procs[callee];
      if BindArgs(callee, p.params, args, e.env).Err? {
        ProcBindingCycle(c, e, callee, args, name);
      } else {
        var bindings := BindArgs(callee, p.params, args, e.env).value;
        var e2 := Inlined(EnterExpansion(e).value, callee, bindings);
        assert callee in IdleProcs(e) && callee !in IdleProcs(e2) && IdleProcs(e2) < IdleProcs(e);
        Extend(c, e.active, callee);
        ProcMakes(c, e.active, callee, BodyCalls(p.body));
        BodyCycle(c, e2, p.body, name);
      }
    }
  }

  lemma ProcMakes(c: Callables, path: seq<string>, callee: string, calls: set<string>)
    requires callee in c.procs && calls <= ProcCalls(c.procs[callee])
    ensures Makes(c, path + [callee], calls)
  {
    hide FnCalls, ProcCalls;
  }

  lemma ProcBindingCycle(c: Callables, e: Emitter, callee: string, args: seq<Arg>, name: string)
    requires e.env.fns == c.fns && e.env.active == [] && callee in c.procs
    requires Recursive(BindArgs(callee, c.procs[callee].params, args, e.env), name)
    ensures OnCycle(c, name)
  {
    hide BindGiven, BindDefaults, OnCycle, Edge;
    var params := c.procs[callee].params;
    if BindGiven(params, args, 0, false, map[], e.env).Err? {
      GivenCycle(c, params, args, 0, false, map[], e.env, name);
    } else {
      var given := BindGiven(params, args, 0, false, map[], e.env).value;
      ProcMakes(c, [], callee, DefaultCalls(params));
      assert [] + [callee] == [callee];
      DefaultsCycle(c, params, given, DefaultScope(e.env, callee), name);
    }
  }

  lemma {:induction false} RepeatCycle(c: Callables, e: Emitter, n: nat, body: seq<Stmt>, name: string)
    requires Expanding(c, e, BodyCalls(body)) && Recursive(EmitRepeat(e, n, body), name)
    ensures OnCycle(c, name)
    decreases IdleProcs(e), body, 1, n
  {
    hide EmitBody, OnCycle, Path, Makes, ExitExpansion;
    var e1 := EnterExpansion(e).value;
    assert IdleProcs(e1) == IdleProcs(e);
    if EmitBody(e1, body).Err? {
      BodyCycle(c, e1, body, name);
    } else {
      var e3 := ExitExpansion(EmitBody(e1, body).value);
      assert IdleProcs(e3) == IdleProcs(e);
      RepeatCycle(c, e3, n - 1, body, name);
    }
  }

  // ----- whole modules -----

  lemma {:induction false} TrailersError(e: Emitter, trailers: seq<Trailer>)
    requires e.Valid()
    ensures NotRecursion(PushTrailers(e, trailers))
    decreases |trailers|
  {
    hide HaltLine;
    if trailers != [] && Push(e, Label(trailers[0].target)).Ok? {
      var e1 := Push(e, Label(trailers[0].target)).value;
      if Push(e1, HaltLine(trailers[0].code)).Ok? {
        TrailersError(Push(e1, HaltLine(trailers[0].code)).value, trailers[1..]);
      }
    }
  }

  lemma {:induction false} InstallKeeps(fns: seq<FnDef>, env: Env)
    ensures InstallFns(fns, env).Err? ==> InstallFns(fns, env) == Err(Rejected)
    ensures InstallFns(fns, env).Ok? ==> InstallFns(fns, env).value.active == env.active
    decreases |fns|
  {
    if fns != [] {
      InstallKeeps(fns[1..], env.(fns := env.fns[fns[0].name := fns[0]]));
    }
  }

  lemma {:induction false} ConstsCycle(c: Callables, consts: seq<Const>, env: Env, name: string)
    requires env.fns == c.fns && env.active == []
    ensures Recursive(ResolveConsts(consts, env), name) ==> OnCycle(c, name)
    ensures var r := ResolveConsts(consts, env); r.Ok? ==> r.value.fns == env.fns && r.value.active == []
    decreases |consts|
  {
    hide Eval, OnCycle, Midway;
    if consts != [] && consts[0].name !in env.consts {
      TopLevel(c, env, Calls(consts[0].value));
      if Eval(consts[0].value, env).Ok? {
        ConstsCycle(c, consts[1..], env.(consts := env.consts[consts[0].name := Eval(consts[0].value, env).value]), name);
      } else if Recursive(Eval(consts[0].value, env), name) {
        EvalCycle(c, consts[0].value, env, name);
      }
    }
  }

  function ModuleCallables(m: Module): Callables
    requires InstallFns(m.fns, EMPTY_ENV).Ok?
  {
    Callables(InstallFns(m.fns, EMPTY_ENV).value.fns, ProcTable(m.procs))
  }

  /**
   * Lowering always ends, and a recursion error is never spurious: the callable it names lies on a
   * cycle of calls made from bodies or from defaults. A module whose call graph is acyclic never
   * gets one.
   */
  lemma RecursionIsReal(m: Module, budgeted: bool, name: string)
    requires Lowered(budgeted, m) == Err(Recursion(name))
    ensures InstallFns(m.fns, EMPTY_ENV).Ok? && OnCycle(ModuleCallables(m), name)
  {
    hide EmitBody, PushTrailers, ProcTable, OnCycle, InstallFns, ResolveConsts, ProcsLegal, Halts, Edge;
    InstallKeeps(m.fns, EMPTY_ENV);
    var c := ModuleCallables(m);
    ConstsCycle(c, m.consts, InstallFns(m.fns, EMPTY_ENV).value, name);
    if ModuleEnv(m).Ok? {
      var e2 := Push(Push(Start(budgeted, c.procs, ModuleEnv(m).value), PROLOGUE[0]).value, PROLOGUE[1]).value;
      if EmitBody(e2, m.tests[0].stmts).Ok? {
        var e3 := EmitBody(e2, m.tests[0].stmts).value;
        TrailersError(e3.(trailers := []), e3.trailers);
      }
      BodyCycle(c, e2, m.tests[0].stmts, name);
    }
  }
}
