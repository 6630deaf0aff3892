/** Evaluation without the recursion guard, and what the guard leaves of it. */
module Semantics {
  import opened Prelude
  import opened Ast
  import opened ConstEval
  import opened Bits
  import C = Crc8

  /** A result that may also need more depth than it was given. */
  datatype Deep<+T> = TooDeep | Failed(error: LangError) | Value(value: T) {
    predicate IsFailure() { !Value? }

    function PropagateFailure<U>(): Deep<U>
      requires !Value?
    {
      if Failed? then Failed(error) else TooDeep
    }

    function Extract(): T
      requires Value?
    {
      value
    }
  }

  function Lift<T>(r: Result<T, LangError>): Deep<T> {
    match r
    case Ok(v) => Value(v)
    case Err(e) => Failed(e)
  }

  /** What the four predefined functions give. */
  function Predefined(func: string, v: ConstEval.Value): Deep<ConstEval.Value> {
    match (func, v)
    case ("crc8", BytesV(b)) => Value(IntV(C.Crc8(b)))
    case ("len", BytesV(b)) => Value(IntV(Wrap64(|b|)))
    case ("lo", IntV(n)) => Value(IntV(n % 256))
    case ("hi", IntV(n)) => Value(IntV((n - n % 256) / 256 % 256))
    case _ => Failed(Rejected)
  }

  predicate IsPredefined(func: string) { func in ["crc8", "len", "lo", "hi"] }

  predicate Typed(v: ConstEval.Value, ty: Type) {
    match (ty, v)
    case (BytesType, BytesV(_)) => true
    case (IntType, IntV(_)) => true
    case (ByteType, IntV(n)) => 0 <= n < 256
    case _ => false
  }

  /** The parameter an argument is for: by position up to the first name, and by name. */
  function Receiving(params: seq<Param>, arg: Arg, i: nat, seenNamed: bool): Deep<Param> {
    match arg.name
    case Some(name) => Lift(FindParam(params, name))
    case None => if !seenNamed && i < |params| then Value(params[i]) else Failed(Rejected)
  }

  /** The meaning of `e`, with `fn` calls nested at most `depth` deep and nothing kept from being called again. */
  function Denote(e: Expr, env: Env, depth: nat): Deep<ConstEval.Value>
    decreases depth, e, 0
  {
    match e
    case IntLit(v) => Value(IntV(v))
    case Name(name) =>
      if name in env.locals then Value(env.locals[name])
      else if name in env.consts then Value(env.consts[name])
      else Failed(Rejected)
    case BytesLit(elems) =>
      var b :- DenoteElems(elems, env, depth);
      Value(BytesV(b))
    case Binary(op, lhs, rhs) =>
      var a :- Denote(lhs, env, depth);
      if op.ConcatOp? != a.BytesV? then Failed(Rejected) else
      var b :- Denote(rhs, env, depth);
      (match (a, b)
       case (BytesV(x), BytesV(y)) => Value(BytesV(x + y))
       case (IntV(x), IntV(y)) => Value(IntV(Xor64(x, y)))
       case _ => Failed(Rejected))
    case Call(func, args) =>
      if IsPredefined(func) then
        if |args| != 1 || args[0].name.Some? then Failed(Rejected) else
        var v :- Denote(args[0].value, env, depth);
        Predefined(func, v)
      else if func !in env.fns then Failed(Rejected)
      else if depth == 0 then TooDeep
      else DenoteFn(func, args, env, depth)
  }

  function DenoteElems(elems: seq<Expr>, env: Env, depth: nat): Deep<seq<byte>>
    decreases depth, elems, 0
  {
    if elems == [] then Value([]) else
    var v :- Denote(elems[0], env, depth);
    if !Typed(v, ByteType) then Failed(Rejected) else
    var rest :- DenoteElems(elems[1..], env, depth);
    Value([v.n] + rest)
  }

  /** Arguments belong to the caller; the body and the defaults see the callee's parameters only. */
  function DenoteFn(func: string, args: seq<Arg>, env: Env, depth: nat): Deep<ConstEval.Value>
    requires func in env.fns && depth > 0
    decreases depth, args, 1
  {
    var f := env.fns[func];
    var given :- DenoteGiven(f.params, args, 0, false, map[], env, depth);
    var bindings :- DenoteDefaults(f.params, given, env.(locals := map[]), depth - 1);
    var v :- Denote(f.body, env.(locals := bindings), depth - 1);
    if Typed(v, f.ret) then Value(v) else Failed(Rejected)
  }

  function DenoteGiven(params: seq<Param>, args: seq<Arg>, i: nat, seenNamed: bool, bound: Scope, env: Env, depth: nat)
    : Deep<Scope>
    decreases depth, args, 0
  {
    if args == [] then Value(bound) else
    var arg := args[0];
    var p :- Receiving(params, arg, i, seenNamed);
    if p.name in bound then Failed(Rejected) else
    assert args decreases to arg;
    assert arg decreases to arg.value;
    var v :- Denote(arg.value, env, depth);
    if !Typed(v, p.ty) then Failed(Rejected) else
    DenoteGiven(params, args[1..], i + 1, seenNamed || arg.name.Some?, bound[p.name := v], env, depth)
  }

  function DenoteDefaults(params: seq<Param>, bound: Scope, env: Env, depth: nat): Deep<Scope>
    decreases depth, params, 0
  {
    if params == [] then Value(bound) else
    var p := params[0];
    if p.name in bound then DenoteDefaults(params[1..], bound, env, depth)
    else if p.default.None? then Failed(Rejected)
    else
      assert params decreases to p;
      assert p decreases to p.default;
      var v :- Denote(p.default.value, env, depth);
      if !Typed(v, p.ty) then Failed(Rejected) else
      DenoteDefaults(params[1..], bound[p.name := v], env, depth)
  }

  // ----- guarded evaluation agrees -----

  /** The environment without the chain of calls in progress. */
  function Module(env: Env): Env { env.(active := []) }

  predicate Guarded<T>(r: Result<T, LangError>) { r.Err? && r.error.Recursion? }

  lemma CallDepth(env: Env, func: string, bindings: Scope)
    requires func in env.fns && func !in env.active
    ensures |ConstEval.Idle(DefaultScope(env, func))| == |ConstEval.Idle(env)| - 1
    ensures ConstEval.Idle(Child(env, func, bindings)) == ConstEval.Idle(DefaultScope(env, func))
    ensures ConstEval.Idle(DefaultScope(env, func)) < ConstEval.Idle(env)
  {
    assert ConstEval.Idle(DefaultScope(env, func)) == ConstEval.Idle(env) - {func};
    assert func in ConstEval.Idle(env);
  }

  /**
   * Where the guard does not report recursion, evaluation gives what the unguarded meaning gives,
   * value or error, at any depth that lets each `fn` be entered once.
   */
  lemma {:induction false} EvalAgrees(e: Expr, env: Env, depth: nat)
    requires !Guarded(Eval(e, env)) && depth >= |ConstEval.Idle(env)|
    ensures Denote(e, Module(env), depth) == Lift(Eval(e, env))
    decreases ConstEval.Idle(env), e, 0
  {
    hide Idle, EvalElems, EvalFn, DenoteElems, DenoteFn, Xor64, Builtin, IsBuiltin, Predefined, IsPredefined;
    match e
    case BytesLit(elems) => ElemsAgree(elems, env, depth);
    case Binary(op, lhs, rhs) =>
      EvalAgrees(lhs, env, depth);
      if !Guarded(Eval(rhs, env)) {
        EvalAgrees(rhs, env, depth);
      }
    case Call(func, args) => CallAgrees(func, args, env, depth);
    case _ =>
  }

  lemma {:induction false} CallAgrees(func: string, args: seq<Arg>, env: Env, depth: nat)
    requires !Guarded(Eval(Call(func, args), env)) && depth >= |ConstEval.Idle(env)|
    ensures Denote(Call(func, args), Module(env), depth) == Lift(Eval(Call(func, args), env))
    decreases ConstEval.Idle(env), args, 2
  {
    hide Idle, EvalFn, DenoteFn, Builtin, IsBuiltin, Predefined, IsPredefined;
    SamePredefined(func);
    if IsBuiltin(func) {
      if |args| == 1 && args[0].name.None? {
        assert args decreases to args[0];
        assert args[0] decreases to args[0].value;
        EvalAgrees(args[0].value, env, depth);
        if Eval(args[0].value, env).Ok? {
          BuiltinAgrees(func, Eval(args[0].value, env).value);
        }
      }
    } else if func in env.fns {
      CallDepth(env, func, map[]);
      FnAgrees(func, args, env, depth);
    }
  }

  lemma SamePredefined(func: string)
    ensures IsPredefined(func) <==> IsBuiltin(func)
  {
  }

  lemma BuiltinAgrees(func: string, v: ConstEval.Value)
    requires IsBuiltin(func)
    ensures Predefined(func, v) == Lift(Builtin(func, v))
  {
    hide C.Crc8, Wrap64;
    if v.IntV? {
      assert (v.n - v.n % 256) / 256 == v.n / 256;
    }
  }

  lemma {:induction false} ElemsAgree(elems: seq<Expr>, env: Env, depth: nat)
    requires !Guarded(EvalElems(elems, env)) && depth >= |ConstEval.Idle(env)|
    ensures DenoteElems(elems, Module(env), depth) == Lift(EvalElems(elems, env))
    decreases ConstEval.Idle(env), elems, 0
  {
    hide Idle, Eval, Denote;
    if elems != [] {
      EvalAgrees(elems[0], env, depth);
      if !Guarded(EvalElems(elems[1..], env)) {
        ElemsAgree(elems[1..], env, depth);
      }
    }
  }

  lemma {:induction false} FnAgrees(func: string, args: seq<Arg>, env: Env, depth: nat)
    requires func in env.fns && func !in env.active && depth > 0
    requires !Guarded(EvalFn(func, args, env)) && depth >= |ConstEval.Idle(env)|
    ensures DenoteFn(func, args, Module(env), depth) == Lift(EvalFn(func, args, env))
    decreases ConstEval.Idle(env), args, 1
  {
    hide Idle, Eval, Denote, BindGiven, DenoteGiven, BindDefaults, DenoteDefaults;
    var f := env.fns[func];
    GivenAgrees(f.params, args, 0, false, map[], env, depth);
    if BindGiven(f.params, args, 0, false, map[], env).Ok? {
      var given := BindGiven(f.params, args, 0, false, map[], env).value;
      var scope := DefaultScope(env, func);
      CallDepth(env, func, given);
      DefaultsAgree(f.params, given, scope, depth - 1);
      if BindDefaults(f.params, given, scope).Ok? {
        var bindings := BindDefaults(f.params, given, scope).value;
        CallDepth(env, func, bindings);
        EvalAgrees(f.body, Child(env, func, bindings), depth - 1);
      }
    }
  }

  lemma {:induction false} GivenAgrees(params: seq<Param>, args: seq<Arg>, i: nat, seenNamed: bool, bound: Scope,
                                       env: Env, depth: nat)
    requires !Guarded(BindGiven(params, args, i, seenNamed, bound, env)) && depth >= |ConstEval.Idle(env)|
    ensures DenoteGiven(params, args, i, seenNamed, bound, Module(env), depth)
         == Lift(BindGiven(params, args, i, seenNamed, bound, env))
    decreases ConstEval.Idle(env), args, 0
  {
    hide Idle, Eval, Denote, FindParam;
    if args != [] && ParamOf(params, args[0], i, seenNamed).Ok? {
      var arg := args[0];
      var p := ParamOf(params, arg, i, seenNamed).value;
      if p.name !in bound {
        assert args decreases to arg;
        assert arg decreases to arg.value;
        EvalAgrees(arg.value, env, depth);
        if Eval(arg.value, env).Ok? && HasType(Eval(arg.value, env).value, p.ty) {
          GivenAgrees(params, args[1..], i + 1, seenNamed || arg.name.Some?,
                      bound[p.name := Eval(arg.value, env).value], env, depth);
        }
      }
    }
  }

  lemma {:induction false} DefaultsAgree(params: seq<Param>, bound: Scope, scope: Env, depth: nat)
    requires !Guarded(BindDefaults(params, bound, scope)) && depth >= |ConstEval.Idle(scope)|
    ensures DenoteDefaults(params, bound, Module(scope), depth) == Lift(BindDefaults(params, bound, scope))
    decreases ConstEval.Idle(scope), params, 0
  {
    hide Idle, Eval, Denote;
    if params != [] {
      var p := params[0];
      if p.name in bound {
        DefaultsAgree(params[1..], bound, scope, depth);
      } else if p.default.Some? {
        assert params decreases to p;
        assert p decreases to p.default;
        EvalAgrees(p.default.value, scope, depth);
        if Eval(p.default.value, scope).Ok? && HasType(Eval(p.default.value, scope).value, p.ty) {
          DefaultsAgree(params[1..], bound[p.name := Eval(p.default.value, scope).value], scope, depth);
        }
      }
    }
  }

  // ----- the unguarded meaning does not depend on the depth -----

  /** More depth never changes an answer. */
  lemma {:induction false} DeeperSame(e: Expr, env: Env, d1: nat, d2: nat)
    requires d1 <= d2 && !Denote(e, env, d1).TooDeep?
    ensures Denote(e, env, d2) == Denote(e, env, d1)
    decreases d1, e, 0
  {
    hide DenoteElems, DenoteFn, Xor64, Predefined, IsPredefined;
    match e
    case BytesLit(elems) => DeeperElems(elems, env, d1, d2);
    case Binary(op, lhs, rhs) =>
      DeeperSame(lhs, env, d1, d2);
      if !Denote(rhs, env, d1).TooDeep? {
        DeeperSame(rhs, env, d1, d2);
      }
    case Call(func, args) => DeeperCall(func, args, env, d1, d2);
    case _ =>
  }

  lemma {:induction false} DeeperCall(func: string, args: seq<Arg>, env: Env, d1: nat, d2: nat)
    requires d1 <= d2 && !Denote(Call(func, args), env, d1).TooDeep?
    ensures Denote(Call(func, args), env, d2) == Denote(Call(func, args), env, d1)
    decreases d1, args, 2
  {
    hide DenoteFn, Predefined, IsPredefined;
    if IsPredefined(func) {
      if |args| == 1 && args[0].name.None? {
        assert args decreases to args[0];
        assert args[0] decreases to args[0].value;
        DeeperSame(args[0].value, env, d1, d2);
      }
    } else if func in env.fns {
      DeeperFn(func, args, env, d1, d2);
    }
  }

  lemma {:induction false} DeeperElems(elems: seq<Expr>, env: Env, d1: nat, d2: nat)
    requires d1 <= d2 && !DenoteElems(elems, env, d1).TooDeep?
    ensures DenoteElems(elems, env, d2) == DenoteElems(elems, env, d1)
    decreases d1, elems, 0
  {
    hide Denote;
    if elems != [] {
      DeeperSame(elems[0], env, d1, d2);
      if !DenoteElems(elems[1..], env, d1).TooDeep? {
        DeeperElems(elems[1..], env, d1, d2);
      }
    }
  }

  lemma {:induction false} DeeperFn(func: string, args: seq<Arg>, env: Env, d1: nat, d2: nat)
    requires func in env.fns && 0 < d1 <= d2 && !DenoteFn(func, args, env, d1).TooDeep?
    ensures DenoteFn(func, args, env, d2) == DenoteFn(func, args, env, d1)
    decreases d1, args, 1
  {
    hide Denote, DenoteGiven, DenoteDefaults;
    var f := env.fns[func];
    DeeperGiven(f.params, args, 0, false, map[], env, d1, d2);
    if DenoteGiven(f.params, args, 0, false, map[], env, d1).Value? {
      var given := DenoteGiven(f.params, args, 0, false, map[], env, d1).value;
      DeeperDefaults(f.params, given, env.(locals := map[]), d1 - 1, d2 - 1);
      if DenoteDefaults(f.params, given, env.(locals := map[]), d1 - 1).Value? {
        var bindings := DenoteDefaults(f.params, given, env.(locals := map[]), d1 - 1).value;
        DeeperSame(f.body, env.(locals := bindings), d1 - 1, d2 - 1);
      }
    }
  }

  lemma {:induction false} DeeperGiven(params: seq<Param>, args: seq<Arg>, i: nat, seenNamed: bool, bound: Scope,
                                       env: Env, d1: nat, d2: nat)
    requires d1 <= d2 && !DenoteGiven(params, args, i, seenNamed, bound, env, d1).TooDeep?
    ensures DenoteGiven(params, args, i, seenNamed, bound, env, d2)
         == DenoteGiven(params, args, i, seenNamed, bound, env, d1)
    decreases d1, args, 0
  {
    hide Denote, Receiving;
    if args != [] && Receiving(params, args[0], i, seenNamed).Value? {
      var arg := args[0];
      var p := Receiving(params, arg, i, seenNamed).value;
      if p.name !in bound {
        assert args decreases to arg;
        assert arg decreases to arg.value;
        DeeperSame(arg.value, env, d1, d2);
        if Denote(arg.value, env, d1).Value? && Typed(Denote(arg.value, env, d1).value, p.ty) {
          DeeperGiven(params, args[1..], i + 1, seenNamed || arg.name.Some?,
                      bound[p.name := Denote(arg.value, env, d1).value], env, d1, d2);
        }
      }
    }
  }

  lemma {:induction false} DeeperDefaults(params: seq<Param>, bound: Scope, env: Env, d1: nat, d2: nat)
    requires d1 <= d2 && !DenoteDefaults(params, bound, env, d1).TooDeep?
    ensures DenoteDefaults(params, bound, env, d2) == DenoteDefaults(params, bound, env, d1)
    decreases d1, params, 0
  {
    hide Denote;
    if params != [] {
      var p := params[0];
      if p.name in bound {
        DeeperDefaults(params[1..], bound, env, d1, d2);
      } else if p.default.Some? {
        assert params decreases to p;
        assert p decreases to p.default;
        DeeperSame(p.default.value, env, d1, d2);
        if Denote(p.default.value, env, d1).Value? && Typed(Denote(p.default.value, env, d1).value, p.ty) {
          DeeperDefaults(params[1..], bound[p.name := Denote(p.default.value, env, d1).value], env, d1, d2);
        }
      }
    }
  }

  /** The unguarded meaning of `e`: what some depth, and so every larger one, gives. */
  ghost predicate Means(e: Expr, env: Env, v: ConstEval.Value) { exists d: nat :: Denote(e, env, d) == Value(v) }

  /** If guarded evaluation returns a value, that is the one value the unguarded meaning has. */
  lemma EvalSound(e: Expr, env: Env, v: ConstEval.Value)
    requires Eval(e, env) == Ok(v)
    ensures forall w :: Means(e, Module(env), w) <==> w == v
  {
    hide Eval, Denote, Idle;
    var d := |ConstEval.Idle(env)|;
    EvalAgrees(e, env, d);
    forall w | Means(e, Module(env), w) ensures w == v {
      var d': nat :| Denote(e, Module(env), d') == Value(w);
      if d <= d' {
        DeeperSame(e, Module(env), d, d');
      } else {
        DeeperSame(e, Module(env), d', d);
      }
    }
  }

  // ----- what evaluation computes -----

  function Apply1(func: string, e: Expr): Expr { Call(func, [Arg(None, e)]) }

  /** `lo` and `hi` are the two low bytes of any integer, negative ones in two's complement. */
  lemma LowBytes(e: Expr, env: Env, n: i64) returns (lo: byte, hi: byte)
    requires Eval(e, env) == Ok(IntV(n))
    ensures Eval(Apply1("lo", e), env) == Ok(IntV(lo)) && Eval(Apply1("hi", e), env) == Ok(IntV(hi))
    ensures n % 0x1_0000 == 0x100 * hi + lo
  {
    hide Eval, Builtin;
    lo, hi := n % 0x100, n / 0x100 % 0x100;
    OneArgument("lo", e, env);
    OneArgument("hi", e, env);
    BuiltinsOfInt(n);
    TwoBytes(n);
  }

  lemma TwoBytes(n: int)
    ensures n % 0x1_0000 == 0x100 * (n / 0x100 % 0x100) + n % 0x100
  {
  }

  lemma BuiltinsOfInt(n: i64)
    ensures IsBuiltin("lo") && Builtin("lo", IntV(n)) == Ok(IntV(n % 0x100))
    ensures IsBuiltin("hi") && Builtin("hi", IntV(n)) == Ok(IntV(n / 0x100 % 0x100))
  {
    hide C.Crc8;
  }

  lemma OneArgument(func: string, e: Expr, env: Env)
    requires IsBuiltin(func)
    ensures Eval(Apply1(func, e), env)
         == match Eval(e, env) case Ok(v) => Builtin(func, v) case Err(x) => Err(x)
  {
    hide Builtin, IsBuiltin;
  }

  /** `len` is the number of bytes, and the CRC of bytes followed by their `crc8` is zero. */
  lemma LengthAndCrc(e: Expr, env: Env, b: seq<byte>) returns (crc: byte)
    requires Eval(e, env) == Ok(BytesV(b)) && |b| < 0x8000_0000_0000_0000
    ensures Eval(Apply1("len", e), env) == Ok(IntV(|b|))
    ensures Eval(Apply1("crc8", e), env) == Ok(IntV(crc))
    ensures Eval(Apply1("crc8", Binary(ConcatOp, e, BytesLit([Apply1("crc8", e)]))), env) == Ok(IntV(0))
  {
    hide Builtin, C.Crc8, Eval;
    crc := C.Crc8(b);
    OneArgument("len", e, env);
    OneArgument("crc8", e, env);
    BuiltinsOfBytes(b);
    BuiltinsOfBytes(b + [crc]);
    var self := BytesLit([Apply1("crc8", e)]);
    BytesInOrder(e, e, [Apply1("crc8", e)], env, [crc], [crc]);
    JoinedIs(e, self, env, b, [crc]);
    OneArgument("crc8", Binary(ConcatOp, e, self), env);
    C.Residue(b, crc);
  }

  lemma BuiltinsOfBytes(b: seq<byte>)
    ensures |b| < 0x8000_0000_0000_0000 ==> Builtin("len", BytesV(b)) == Ok(IntV(|b|))
    ensures Builtin("crc8", BytesV(b)) == Ok(IntV(C.Crc8(b)))
    ensures IsBuiltin("len") && IsBuiltin("crc8")
  {
    hide C.Crc8, Wrap64;
    if |b| < 0x8000_0000_0000_0000 {
      SmallWrap(|b|);
    }
  }

  lemma SmallWrap(n: int)
    requires 0 <= n < 0x8000_0000_0000_0000
    ensures Wrap64(n) == n
  {
  }

  /** `^` works on the 64 bits of two's complement, one by one. */
  lemma XorBitwise(lhs: Expr, rhs: Expr, env: Env, a: i64, b: i64) returns (r: i64)
    requires Eval(lhs, env) == Ok(IntV(a)) && Eval(rhs, env) == Ok(IntV(b))
    ensures Eval(Binary(XorOp, lhs, rhs), env) == Ok(IntV(r))
    ensures forall k :: 0 <= k < 64 ==>
      Bit(r % 0x1_0000_0000_0000_0000, k)
      == (Bit(a % 0x1_0000_0000_0000_0000, k) != Bit(b % 0x1_0000_0000_0000_0000, k))
  {
    hide Bit, Xor64, Eval;
    r := Xor64(a, b);
    XorOf(lhs, rhs, env, a, b);
    XorPattern(a, b);
    var x, y := a % 0x1_0000_0000_0000_0000, b % 0x1_0000_0000_0000_0000;
    forall k | 0 <= k < 64 ensures Bit(r % 0x1_0000_0000_0000_0000, k) == (Bit(x, k) != Bit(y, k)) {
      BitwiseBit(XorGate, x, y, 64, k);
    }
  }

  lemma XorOf(lhs: Expr, rhs: Expr, env: Env, a: i64, b: i64)
    requires Eval(lhs, env) == Ok(IntV(a)) && Eval(rhs, env) == Ok(IntV(b))
    ensures Eval(Binary(XorOp, lhs, rhs), env) == Ok(IntV(Xor64(a, b)))
  {
    hide Xor64;
  }

  lemma XorPattern(a: i64, b: i64)
    ensures Xor64(a, b) % 0x1_0000_0000_0000_0000
         == Bitwise(XorGate, a % 0x1_0000_0000_0000_0000, b % 0x1_0000_0000_0000_0000, 64)
  {
    hide Bitwise, Wrap64;
    Powers();
    WrapPattern(Bitwise(XorGate, Unsigned(a), Unsigned(b), 64));
  }

  lemma WrapPattern(n: nat)
    requires n < 0x1_0000_0000_0000_0000
    ensures Wrap64(n) % 0x1_0000_0000_0000_0000 == n
  {
  }

  /** `++` joins bytes in order, and a list of bytes is the bytes of its elements in order. */
  lemma BytesInOrder(lhs: Expr, rhs: Expr, elems: seq<Expr>, env: Env, a: seq<byte>, b: seq<byte>)
    ensures Eval(lhs, env) == Ok(BytesV(a)) && Eval(rhs, env) == Ok(BytesV(b)) ==>
              Eval(Binary(ConcatOp, lhs, rhs), env) == Ok(BytesV(a + b))
    ensures Eval(BytesLit(elems), env) == Ok(BytesV(a))
       <==> |elems| == |a| && forall k :: 0 <= k < |a| ==> Eval(elems[k], env) == Ok(IntV(a[k]))
  {
    hide Eval;
    ElemsInOrder(elems, env, a);
    LiteralIs(elems, env);
    if Eval(lhs, env) == Ok(BytesV(a)) && Eval(rhs, env) == Ok(BytesV(b)) {
      JoinedIs(lhs, rhs, env, a, b);
    }
  }

  lemma LiteralIs(elems: seq<Expr>, env: Env)
    ensures Eval(BytesLit(elems), env)
         == match EvalElems(elems, env) case Ok(b) => Ok(BytesV(b)) case Err(x) => Err(x)
  {
    hide EvalElems;
  }

  lemma JoinedIs(lhs: Expr, rhs: Expr, env: Env, a: seq<byte>, b: seq<byte>)
    requires Eval(lhs, env) == Ok(BytesV(a)) && Eval(rhs, env) == Ok(BytesV(b))
    ensures Eval(Binary(ConcatOp, lhs, rhs), env) == Ok(BytesV(a + b))
  {
  }

  lemma {:induction false} ElemsInOrder(elems: seq<Expr>, env: Env, a: seq<byte>)
    ensures EvalElems(elems, env) == Ok(a)
       <==> |elems| == |a| && forall k :: 0 <= k < |a| ==> Eval(elems[k], env) == Ok(IntV(a[k]))
    decreases |elems|
  {
    hide Eval;
    if elems != [] && a != [] {
      ElemsInOrder(elems[1..], env, a[1..]);
      assert a == [a[0]] + a[1..];
      if EvalElems(elems, env) == Ok(a) {
        assert EvalElems(elems, env).value[1..] == EvalElems(elems[1..], env).value;
      }
    }
  }

  /** What a byte, an integer and bytes are evaluated to where the language wants one of them. */
  lemma WantedIff(e: Expr, env: Env, n: i64, b: seq<byte>)
    ensures EvalByte(e, env) == Ok(n) <==> Eval(e, env) == Ok(IntV(n)) && 0 <= n < 256
    ensures EvalInt(e, env) == Ok(n) <==> Eval(e, env) == Ok(IntV(n))
    ensures EvalBytes(e, env) == Ok(b) <==> Eval(e, env) == Ok(BytesV(b))
  {
    hide Eval;
  }

  // ----- the guard is stricter than divergence -----

  /** `fn f(n: int = f(1)) -> int = n` */
  const SELF_DEFAULT := FnDef("f", [Param("n", IntType, Some(Call("f", [Arg(None, IntLit(1))])))], IntType, Name("n"))

  /** A call that would finish, and that the guard rejects all the same. */
  lemma GuardIsStricter()
    ensures var env := Env(map[], map[], map["f" := SELF_DEFAULT], []);
            && Eval(Call("f", []), env) == Err(Recursion("f"))
            && Denote(Call("f", []), env, 2) == Value(IntV(1))
  {
    var env := Env(map[], map[], map["f" := SELF_DEFAULT], []);
    var scope := DefaultScope(env, "f");
    assert scope.active == ["f"];
    assert Eval(Call("f", [Arg(None, IntLit(1))]), scope) == Err(Recursion("f"));
    assert BindDefaults(SELF_DEFAULT.params, map[], scope) == Err(Recursion("f"));
    assert BindGiven(SELF_DEFAULT.params, [], 0, false, map[], env) == Ok(map[]);
    assert EvalFn("f", [], env) == Err(Recursion("f"));
    var one := Call("f", [Arg(None, IntLit(1))]);
    var given := map["n" := IntV(1)];
    var args := [Arg(None, IntLit(1))];
    assert args[1..] == [];
    assert DenoteGiven(SELF_DEFAULT.params, args, 0, false, map[], env, 1) == Value(given);
    assert DenoteDefaults(SELF_DEFAULT.params, given, env, 0) == Value(given);
    assert Denote(one, env, 1) == Value(IntV(1));
    assert SELF_DEFAULT.params[1..] == [];
    assert DenoteDefaults(SELF_DEFAULT.params, map[], env, 1) == Value(given);
  }
}
