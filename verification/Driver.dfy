/** From a parsed module to assembler lines: the checks around the emitter. */
module Driver {
  import opened Prelude
  import opened Asm
  import opened Ast
  import opened ConstEval
  import opened Emit
  import P = Printer

  const STMT_KEYWORDS := ["pass", "fail", "send", "crc_region", "config", "frame", "recv", "wait_state", "expect", "repeat"]

  /** Names no `fn` or `proc` may take. */
  predicate Reserved(name: string) { IsBuiltin(name) || name in STMT_KEYWORDS }

  /** Every `fn` is callable before any `const` is resolved. */
  function InstallFns(fns: seq<FnDef>, env: Env): Result<Env, LangError>
    decreases |fns|
  {
    if fns == [] then Ok(env)
    else if Reserved(fns[0].name) || fns[0].name in env.fns then Err(Rejected)
    else InstallFns(fns[1..], env.(fns := env.fns[fns[0].name := fns[0]]))
  }

  /** `fn`s and `proc`s share one namespace. */
  predicate ProcsLegal(procs: seq<ProcDef>, fns: map<string, FnDef>) {
    && (forall i :: 0 <= i < |procs| ==> !Reserved(procs[i].name) && procs[i].name !in fns)
    && (forall i, j :: 0 <= i < j < |procs| ==> procs[i].name != procs[j].name)
  }

  /** Constants resolve in source order, each seeing the earlier ones. */
  function ResolveConsts(consts: seq<Const>, env: Env): Result<Env, LangError>
    decreases |consts|
  {
    if consts == [] then Ok(env)
    else if consts[0].name in env.consts then Err(Rejected)
    else
      var v :- Eval(consts[0].value, env);
      ResolveConsts(consts[1..], env.(consts := env.consts[consts[0].name := v]))
  }

  const EMPTY_ENV := Env(map[], map[], map[], [])

  /** The environment the test is lowered in. */
  function ModuleEnv(m: Module): Result<Env, LangError> {
    var env :- InstallFns(m.fns, EMPTY_ENV);
    if !ProcsLegal(m.procs, env.fns) then Err(Rejected) else ResolveConsts(m.consts, env)
  }

  /** What the driver counts as the end of a program. */
  predicate Terminator(s: Stmt) { s.Pass? || s.Fail? || (s.Raw? && s.mnemonic == "halt") }

  predicate Halts(stmts: seq<Stmt>) { exists k :: 0 <= k < |stmts| && Terminator(stmts[k]) }

  function Lowered(budgeted: bool, m: Module): Result<Emitter, LangError> {
    var env :- ModuleEnv(m);
    if |m.tests| != 1 || !Halts(m.tests[0].stmts) then Err(Rejected)
    else EmitTest(Start(budgeted, ProcTable(m.procs), env), m.tests[0].stmts)
  }

  /** What the assembler lines of an accepted module say. */
  function Lower(m: Module): (r: Result<seq<Line>, LangError>)
    ensures r.Ok? ==> ModuleEnv(m).Ok? && |m.tests| == 1
  {
    var e :- Lowered(true, m);
    Ok(e.lines)
  }

  /** The assembler text of an accepted module. */
  function LowerText(m: Module): (r: Result<string, LangError>)
    ensures r.Ok? <==> Lower(m).Ok?
  {
    var e :- Lowered(true, m);
    Ok(P.TextAll(e.asm))
  }
}
