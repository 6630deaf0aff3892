/** Compile-time evaluation. */
module ConstEval {
  import opened Prelude
  import opened Ast
  import opened Bits
  import C = Crc8

  datatype Value = IntV(n: i64) | BytesV(bytes: seq<byte>)

  type Scope = map<string, Value>

  /** `active` lists the callables whose expansion is in progress, innermost last. */
  datatype Env = Env(consts: Scope, locals: Scope, fns: map<string, FnDef>, active: seq<string>)

  /** Locals first, then module constants. */
  function Get(env: Env, name: string): Option<Value> {
    if name in env.locals then Some(env.locals[name])
    else if name in env.consts then Some(env.consts[name])
    else None
  }

  /** The scope of a parameter default: no locals, and the callee counts as being expanded. */
  function DefaultScope(env: Env, callee: string): Env {
    env.(locals := map[], active := env.active + [callee])
  }

  /** The scope of a `proc` body. */
  function ChildValues(env: Env, bindings: Scope): Env { env.(locals := bindings) }

  /** The scope of a `fn` body. */
  function Child(env: Env, callee: string, bindings: Scope): Env {
    ChildValues(env, bindings).(active := env.active + [callee])
  }

  /** The `fn`s not yet being expanded: what bounds the depth of evaluation. */
  function Idle(env: Env): set<string> { env.fns.Keys - (set n | n in env.active) }

  // ----- 64-bit arithmetic -----

  function Wrap64(n: int): i64 {
    var w := n % 0x1_0000_0000_0000_0000;
    if w < 0x8000_0000_0000_0000 then w else w - 0x1_0000_0000_0000_0000
  }

  function Unsigned(n: i64): int { n % 0x1_0000_0000_0000_0000 }

  function Xor64(a: i64, b: i64): i64 {
    Wrap64(Bitwise(XorGate, Unsigned(a), Unsigned(b), 64))
  }

  function AsInt(v: Value): Result<i64, LangError> {
    if v.IntV? then Ok(v.n) else Err(Rejected)
  }

  function AsBytes(v: Value): Result<seq<byte>, LangError> {
    if v.BytesV? then Ok(v.bytes) else Err(Rejected)
  }

  function AsByte(v: Value): Result<byte, LangError> {
    if v.IntV? && 0 <= v.n <= 255 then Ok(v.n) else Err(Rejected)
  }

  predicate HasType(v: Value, ty: Type) {
    match ty
    case BytesType => v.BytesV?
    case IntType => v.IntV?
    case ByteType => v.IntV? && 0 <= v.n <= 255
  }

  function CheckType(v: Value, ty: Type): Result<Value, LangError> {
    if HasType(v, ty) then Ok(v) else Err(Rejected)
  }

  // ----- builtins -----

  predicate IsBuiltin(func: string) { func == "crc8" || func == "len" || func == "lo" || func == "hi" }

  /** The value of a builtin applied to its evaluated argument. */
  function Builtin(func: string, v: Value): Result<Value, LangError>
    requires IsBuiltin(func)
  {
    if func == "crc8" then
      var b :- AsBytes(v);
      Ok(IntV(C.Crc8(b)))
    else if func == "len" then
      var b :- AsBytes(v);
      Ok(IntV(Wrap64(|b|)))
    else if func == "lo" then
      var n :- AsInt(v);
      Ok(IntV(n % 0x100))
    else
      var n :- AsInt(v);
      Ok(IntV(n / 0x100 % 0x100))
  }

  // ----- argument binding -----

  /** The parameter an argument binds, or an error. */
  function ParamOf(params: seq<Param>, arg: Arg, i: nat, seenNamed: bool): Result<Param, LangError> {
    match arg.name
    case None => if seenNamed || i >= |params| then Err(Rejected) else Ok(params[i])
    case Some(name) => FindParam(params, name)
  }

  function FindParam(params: seq<Param>, name: string): (r: Result<Param, LangError>)
    ensures r.Ok? ==> r.value in params && r.value.name == name
    ensures r.Err? ==> r == Err(Rejected) && forall p :: p in params ==> p.name != name
  {
    if params == [] then Err(Rejected)
    else if params[0].name == name then Ok(params[0])
    else FindParam(params[1..], name)
  }

  // ----- evaluation -----

  function Eval(e: Expr, env: Env): Result<Value, LangError>
    decreases Idle(env), e, 0
  {
    match e
    case IntLit(v) => Ok(IntV(v))
    case Name(name) => if Get(env, name).Some? then Ok(Get(env, name).value) else Err(Rejected)
    case BytesLit(elems) =>
      var b :- EvalElems(elems, env);
      Ok(BytesV(b))
    case Binary(op, lhs, rhs) =>
      var a :- Eval(lhs, env);
      if op == ConcatOp then
        var x :- AsBytes(a);
        var b :- Eval(rhs, env);
        var y :- AsBytes(b);
        Ok(BytesV(x + y))
      else
        var x :- AsInt(a);
        var b :- Eval(rhs, env);
        var y :- AsInt(b);
        Ok(IntV(Xor64(x, y)))
    case Call(func, args) =>
      if IsBuiltin(func) then
        if |args| != 1 || args[0].name.Some? then Err(Rejected) else
        var v :- Eval(args[0].value, env);
        Builtin(func, v)
      else if func !in env.fns then Err(Rejected)
      else if func in env.active then Err(Recursion(func))
      else EvalFn(func, args, env)
  }

  function EvalElems(elems: seq<Expr>, env: Env): Result<seq<byte>, LangError>
    decreases Idle(env), elems, 0
  {
    if elems == [] then Ok([]) else
    var v :- Eval(elems[0], env);
    var b :- AsByte(v);
    var rest :- EvalElems(elems[1..], env);
    Ok([b] + rest)
  }

  function EvalFn(func: string, args: seq<Arg>, env: Env): Result<Value, LangError>
    requires func in env.fns && func !in env.active
    decreases Idle(env), args, 1
  {
    var f := env.fns[func];
    assert func in Idle(env) && func !in Idle(DefaultScope(env, func));
    assert Idle(DefaultScope(env, func)) < Idle(env);
    var given :- BindGiven(f.params, args, 0, false, map[], env);
    var bindings :- BindDefaults(f.params, given, DefaultScope(env, func));
    var child := Child(env, func, bindings);
    assert Idle(child) == Idle(DefaultScope(env, func));
    var v :- Eval(f.body, child);
    CheckType(v, f.ret)
  }

  /** Binds the remaining arguments, the first of which stands at position `i`. */
  function BindGiven(params: seq<Param>, args: seq<Arg>, i: nat, seenNamed: bool, bound: Scope, env: Env)
    : Result<Scope, LangError>
    decreases Idle(env), args, 0
  {
    if args == [] then Ok(bound) else
    var arg := args[0];
    var p :- ParamOf(params, arg, i, seenNamed);
    if p.name in bound then Err(Rejected) else
    assert args decreases to arg;
    assert arg decreases to arg.value;
    var v :- Eval(arg.value, env);
    var _ :- CheckType(v, p.ty);
    BindGiven(params, args[1..], i + 1, seenNamed || arg.name.Some?, bound[p.name := v], env)
  }

  /** Fills the parameters still unbound from their defaults, in declaration order. */
  function BindDefaults(params: seq<Param>, bound: Scope, scope: Env): Result<Scope, LangError>
    decreases Idle(scope), params, 0
  {
    if params == [] then Ok(bound) else
    var p := params[0];
    if p.name in bound then BindDefaults(params[1..], bound, scope)
    else if p.default.None? then Err(Rejected)
    else
      var v :- Eval(p.default.value, scope);
      var _ :- CheckType(v, p.ty);
      BindDefaults(params[1..], bound[p.name := v], scope)
  }

  /** What `bind_args` computes for a `fn` or a `proc`. */
  function BindArgs(callee: string, params: seq<Param>, args: seq<Arg>, env: Env): Result<Scope, LangError> {
    var given :- BindGiven(params, args, 0, false, map[], env);
    BindDefaults(params, given, DefaultScope(env, callee))
  }

  function EvalInt(e: Expr, env: Env): Result<i64, LangError> {
    var v :- Eval(e, env);
    AsInt(v)
  }

  function EvalBytes(e: Expr, env: Env): Result<seq<byte>, LangError> {
    var v :- Eval(e, env);
    AsBytes(v)
  }

  function EvalByte(e: Expr, env: Env): Result<byte, LangError> {
    var v :- Eval(e, env);
    AsByte(v)
  }
}
