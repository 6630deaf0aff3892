/**
 * What a test costs and whether it is acceptable, read from the syntax alone: registers held at
 * once, verdicts pending, lines, trailers and expansions, and the first thing that is wrong.
 */
module Weight {
  import opened Prelude
  import opened Ast
  import opened ConstEval
  import opened Interp

  /**
   * `held` counts the registers of names in scope and of pending verdicts, `trailers` the verdicts
   * hoisted out of closed frames.
   */
  datatype Load = Load(held: nat, pending: nat, lines: nat, trailers: nat, expansions: nat)

  type Weighed = Result<Load, LangError>

  /** Some more lines, at most 4096 in all. */
  function Lines(at: Load, n: nat): Weighed {
    if n > 0 && at.lines + n > 4096 then Err(LineBudget) else Ok(at.(lines := at.lines + n))
  }

  /** One more register, at most fifteen in all. */
  function Hold(at: Load): Weighed {
    if at.held + 1 > 15 then Err(OutOfRegisters) else Ok(at.(held := at.held + 1))
  }

  /** One more expansion, at most 65536 in all. */
  function Expand(at: Load): Weighed {
    if at.expansions + 1 > 65536 then Err(ExpansionBudget) else Ok(at.(expansions := at.expansions + 1))
  }

  /** A register is held while a byte is received into it; a name keeps it. */
  function WeighTargets(targets: seq<RecvTarget>, at: Load): (r: Weighed)
    ensures r.Ok? ==> r.value.pending == at.pending
    decreases |targets|
  {
    if targets == [] then Ok(at) else
    var _ :- Hold(at);
    var more :- Lines(at, 1);
    WeighTargets(targets[1..], more.(held := at.held + (if targets[0].Bind? then 1 else 0)))
  }

  /** The sizes of the sends of a region, the CRC not counted. */
  function Sizes(sends: seq<Expr>, env: Env): Result<nat, LangError>
    decreases |sends|
  {
    if sends == [] then Ok(0) else
    var b :- EvalBytes(sends[0], env);
    var n :- Sizes(sends[1..], env);
    Ok(|b| + n)
  }

  /** Label and `crc_reset`; a register for the response; another to compare with; two lines more. */
  function WeighPoll(bind: Option<string>, at: Load): (r: Weighed)
    ensures r.Ok? ==> r.value.pending == at.pending
  {
    var at1 :- Lines(at, 2);
    var at2 :- Hold(at1);
    var at3 :- Lines(at2, 1);
    var at4 :- Hold(at3);
    var at5 :- Lines(at4, 2);
    Ok(at5.(held := at.held + (if bind.Some? then 1 else 0)))
  }

  function WeighSimple(c: Context, s: Stmt, at: Load): (r: Weighed)
    requires !s.Frame? && !s.CallProc? && !s.Repeat?
    ensures r.Ok? ==> r.value.pending >= at.pending
  {
    match s
    case Pass => Lines(at, 1)
    case Fail(_) => Lines(at, 1)
    case Raw(_, _) => Lines(at, 1)
    case Config(_) => Lines(at, 1)
    case Send(bytes, appendCrc) =>
      var b :- EvalBytes(bytes, c.env);
      Lines(at, |b| + (if appendCrc then 1 else 0))
    case CrcRegion(sends) =>
      var n :- Sizes(sends, c.env);
      Lines(at, n + 1)
    case Recv(targets) => WeighTargets(targets, at)
    case WaitState(bind) => WeighPoll(bind, at)
    case Expect(elseCode) =>
      if !c.inFrame then Err(Rejected) else
      var _ :- EvalByte(elseCode, c.env);
      var at1 :- Hold(at);
      var at2 :- Lines(at1, 2);
      Ok(at2.(pending := at.pending + 1))
  }

  function WeighStmt(c: Context, s: Stmt, at: Load): (r: Weighed)
    ensures r.Ok? ==> r.value.pending >= at.pending
    decreases Interp.Idle(c), s, 0
  {
    if c.inFrame && !InFrame(s) then Err(Rejected) else
    match s
    case Frame(body) =>
      var begun :- Lines(at, 1);
      assert Interp.Idle(c.(inFrame := true)) == Interp.Idle(c);
      var end :- WeighBody(c.(inFrame := true), body, begun.(pending := 0));
      var closed :- Lines(end, 1 + end.pending);
      Ok(closed.(held := at.held, pending := at.pending, trailers := end.trailers + end.pending))
    case CallProc(name, args) => WeighCall(c, name, args, at)
    case Repeat(count, body) =>
      var n :- EvalInt(count, c.env);
      if !(0 <= n <= 1024) then Err(Rejected) else WeighRepeat(c, n, body, at)
    case _ => WeighSimple(c, s, at)
  }

  function WeighBody(c: Context, body: seq<Stmt>, at: Load): (r: Weighed)
    ensures r.Ok? ==> r.value.pending >= at.pending
    decreases Interp.Idle(c), body, 0
  {
    if body == [] then Ok(at) else
    var at' :- WeighStmt(c, body[0], at);
    WeighBody(c, body[1..], at')
  }

  /** After an expansion, what it bound is free again and what its verdicts need is not. */
  function Left(at: Load, end: Load): Load
    requires end.pending >= at.pending
  {
    end.(held := at.held + (end.pending - at.pending))
  }

  function WeighCall(c: Context, name: string, args: seq<Arg>, at: Load): (r: Weighed)
    ensures r.Ok? ==> r.value.pending >= at.pending
    decreases Interp.Idle(c), args, 0
  {
    if name in c.env.fns || name !in c.procs then Err(Rejected)
    else if name in c.active then Err(Recursion(name))
    else
      var p := c.procs[name];
      var bindings :- BindArgs(name, p.params, args, c.env);
      var begun :- Expand(at);
      var c' := c.(env := ChildValues(c.env, bindings), active := c.active + [name]);
      assert name in Interp.Idle(c) && name !in Interp.Idle(c') && Interp.Idle(c') < Interp.Idle(c);
      var end :- WeighBody(c', p.body, begun);
      Ok(Left(at, end))
  }

  function WeighRepeat(c: Context, n: nat, body: seq<Stmt>, at: Load): (r: Weighed)
    ensures r.Ok? ==> r.value.pending >= at.pending
    decreases Interp.Idle(c), body, 1, n
  {
    if n == 0 then Ok(at) else
    var begun :- Expand(at);
    var end :- WeighBody(c, body, begun);
    WeighRepeat(c, n - 1, body, Left(at, end))
  }

  /** A whole test: two lines of entry, and two for each trailer. */
  function WeighTest(procs: map<string, ProcDef>, env: Env, stmts: seq<Stmt>): Weighed {
    var end :- WeighBody(Context(procs, env, [], false), stmts, Load(0, 0, 2, 0, 0));
    Lines(end, 2 * end.trailers)
  }
}
