/** Lowering a module to assembler lines. */
module Emit {
  import opened Prelude
  import opened Text
  import opened Asm
  import opened Ast
  import opened ConstEval
  import opened Registers
  import P = Printer
  import C = Crc8

  const WAIT_STATE_CODE := 0x0F
  const MAX_EMITTED_LINES := 4096
  const MAX_EXPANSIONS := 65536
  const MAX_UNROLL := 1024

  /** A verdict branch waiting for its frame to close. */
  datatype Deferred = Deferred(reg: nat, target: string, code: byte)

  datatype Trailer = Trailer(target: string, code: byte)

  /**
   * The emitter between two statements. `asm` is the text written so far, line by line, and `lines`
   * what each line of it is meant to say; `frames` holds, for each open frame, the verdicts deferred
   * to its end; `budgeted` says whether the two whole-program budgets are enforced.
   */
  datatype Emitter = Emitter(
    budgeted: bool,
    procs: map<string, ProcDef>,
    env: Env,
    lines: seq<Line>,
    asm: seq<P.Written>,
    pool: Pool,
    gensym: nat,
    trailers: seq<Trailer>,
    frames: seq<seq<Deferred>>,
    active: seq<string>,
    expansions: nat)
  {
    predicate Valid() { pool.Valid() && DeferredInWindow(frames) }
  }

  predicate DeferredInWindow(frames: seq<seq<Deferred>>) {
    forall k, d :: 0 <= k < |frames| && d in frames[k] ==> 1 <= d.reg < NUM_REGS
  }

  /** What lowering a statement leaves alone. */
  predicate SameContext(e: Emitter, e': Emitter) {
    && e'.budgeted == e.budgeted && e'.procs == e.procs && e'.env == e.env && e'.active == e.active
    && |e'.frames| == |e.frames|
    && Prefix(e.lines, e'.lines) && Prefix(e.trailers, e'.trailers)
    && e.gensym <= e'.gensym && e.expansions <= e'.expansions
  }

  predicate Prefix<T(==)>(a: seq<T>, b: seq<T>) { |a| <= |b| && b[..|a|] == a }

  lemma PrefixTrans<T>(a: seq<T>, b: seq<T>, c: seq<T>)
    requires Prefix(a, b) && Prefix(b, c)
    ensures Prefix(a, c)
  {
    assert a == b[..|a|] == c[..|b|][..|a|] == c[..|a|];
  }

  lemma ContextTrans(e: Emitter, e1: Emitter, e2: Emitter)
    requires SameContext(e, e1) && SameContext(e1, e2)
    ensures SameContext(e, e2)
  {
    hide Prefix;
    PrefixTrans(e.lines, e1.lines, e2.lines);
    PrefixTrans(e.trailers, e1.trailers, e2.trailers);
  }

  type Emitted = r: Result<Emitter, LangError> | r.Ok? ==> r.value.Valid() witness Err(Rejected)

  /** The procs not being expanded: what bounds the depth of expansion. */
  function IdleProcs(e: Emitter): set<string> { e.procs.Keys - (set n | n in e.active) }

  // ----- single lines -----

  function Reg(n: nat): Operand { Ident(RegName(n)) }

  function WaitLabel(n: nat): string { "__wait" + Dec(n) }
  function FailLabel(n: nat): string { "__fail" + Dec(n) }

  function PutLine(b: byte): Line { Op("put_byte", [Num(b)]) }
  function GetLine(reg: nat): Line { Op("get_byte", [Reg(reg)]) }
  function HaltLine(code: byte): Line { Op("halt", [Num(code)]) }
  function BnezLine(d: Deferred): Line { Op("bnez", [Reg(d.reg), Ident(d.target)]) }

  const CS_ASSERT := Op("cs_assert", [])
  const CS_DEASSERT := Op("cs_deassert", [])
  const CRC_RESET := Op("crc_reset", [])

  /** Every line goes through here; this is where the line budget is enforced. */
  function Append(e: Emitter, line: Line, text: P.Written): (r: Emitted)
    requires e.Valid()
    ensures r.Ok? ==> SameContext(e, r.value)
  {
    if e.budgeted && |e.lines| >= MAX_EMITTED_LINES then Err(LineBudget)
    else Ok(e.(lines := e.lines + [line], asm := e.asm + [text]))
  }

  /** A line the compiler makes: bytes are written in hexadecimal. */
  function Push(e: Emitter, line: Line): (r: Emitted)
    requires e.Valid()
    ensures r.Ok? ==> SameContext(e, r.value)
  {
    Append(e, line, P.Write(line, true))
  }

  function CopiedText(mnemonic: Word, operands: seq<Lexeme>): P.Written { P.WOp(true, mnemonic, operands) }

  function CopiedLine(mnemonic: Word, operands: seq<Lexeme>): Line { Op(mnemonic, P.ReadAll(operands)) }

  const HALT: Word := "halt"
  const SET_CONFIG: Word := "set_config"

  /** A line whose words are copied from the source without a look at them. */
  function Copy(e: Emitter, mnemonic: Word, operands: seq<Lexeme>): (r: Emitted)
    requires e.Valid()
    ensures r.Ok? ==> SameContext(e, r.value)
  {
    Append(e, CopiedLine(mnemonic, operands), CopiedText(mnemonic, operands))
  }

  function PushBytes(e: Emitter, bytes: seq<byte>): (r: Emitted)
    requires e.Valid()
    ensures r.Ok? ==> SameContext(e, r.value)
    decreases |bytes|
  {
    if bytes == [] then Ok(e) else
    var e1 :- Push(e, PutLine(bytes[0]));
    PushBytes(e1, bytes[1..])
  }

  /** The bytes of the sends of a `crc_region`, in order. */
  function EvalSends(sends: seq<Expr>, env: Env): Result<seq<byte>, LangError>
    decreases |sends|
  {
    if sends == [] then Ok([]) else
    var b :- EvalBytes(sends[0], env);
    var rest :- EvalSends(sends[1..], env);
    Ok(b + rest)
  }

  /** The sends of `a`, and then those of `c`. */
  lemma {:induction false} SendsJoin(a: seq<Expr>, c: seq<Expr>, env: Env)
    ensures EvalSends(a + c, env)
         == match EvalSends(a, env)
            case Err(x) => Err(x)
            case Ok(first) => match EvalSends(c, env) case Err(x) => Err(x) case Ok(last) => Ok(first + last)
    decreases |a|
  {
    hide EvalBytes;
    if a == [] {
      assert a + c == c;
      assert forall last: seq<byte> :: [] + last == last;
    } else {
      SendsJoin(a[1..], c, env);
      assert forall b: seq<byte>, x: seq<byte>, y: seq<byte> :: (b + x) + y == b + (x + y);
      assert (a + c)[0] == a[0] && (a + c)[1..] == a[1..] + c;
    }
  }

  lemma OneSend(bytes: Expr, env: Env)
    ensures EvalSends([bytes], env) == EvalBytes(bytes, env)
  {
    hide EvalBytes;
    assert [bytes][1..] == [];
    if EvalBytes(bytes, env).Ok? {
      assert EvalBytes(bytes, env).value + [] == EvalBytes(bytes, env).value;
    }
  }

  // ----- statements that receive -----

  function TakeReg(e: Emitter, name: Option<string>): (r: Option<Lease>)
    requires e.Valid()
    ensures r.Some? ==> r.value.pool.Valid() && 1 <= r.value.reg < NUM_REGS && !e.pool.busy[r.value.reg]
    ensures r.Some? ==> r.value.pool.busy == e.pool.busy[r.value.reg := true]
  {
    Lend(e.pool, name)
  }

  function FreeIf(e: Emitter, free: bool, reg: nat): (r: Emitter)
    requires e.Valid()
    ensures r.Valid() && r == e.(pool := r.pool)
  {
    if free then e.(pool := Free(e.pool, reg)) else e
  }

  function NameOf(target: RecvTarget): Option<string> { if target.Bind? then Some(target.name) else None }

  /** One `get_byte` into a fresh register, kept if it has a name. */
  function RecvOne(e: Emitter, target: RecvTarget): (r: Emitted)
    requires e.Valid()
    ensures r.Ok? ==> SameContext(e, r.value)
  {
    match TakeReg(e, NameOf(target))
    case None => Err(OutOfRegisters)
    case Some(t) =>
      var e1 :- Push(e.(pool := t.pool), GetLine(t.reg));
      Ok(FreeIf(e1, target.Discard?, t.reg))
  }

  function RecvAll(e: Emitter, targets: seq<RecvTarget>): (r: Emitted)
    requires e.Valid()
    ensures r.Ok? ==> SameContext(e, r.value)
    decreases |targets|
  {
    if targets == [] then Ok(e) else
    var e1 :- RecvOne(e, targets[0]);
    RecvAll(e1, targets[1..])
  }

  /** The poll loop: label, `crc_reset`, `get_byte`, `li`, `beq` back to the label. */
  function LowerWaitState(e: Emitter, bind: Option<string>): (r: Emitted)
    requires e.Valid()
    ensures r.Ok? ==> SameContext(e, r.value)
  {
    var loop := WaitLabel(e.gensym);
    var e1 :- PollStart(e, loop);
    var e2 :- PollOnce(e1, loop, bind);
    ContextTrans(e, e1, e2);
    Ok(e2)
  }

  /** Receives the response, and branches back if it is WAIT_STATE. */
  function PollOnce(e: Emitter, loop: string, bind: Option<string>): (r: Emitted)
    requires e.Valid()
    ensures r.Ok? ==> SameContext(e, r.value)
  {
    match TakeReg(e, bind)
    case None => Err(OutOfRegisters)
    case Some(resp) =>
      var e1 :- Push(e.(pool := resp.pool), GetLine(resp.reg));
      var e2 :- PollAgain(e1, loop, resp.reg);
      ContextTrans(e.(pool := resp.pool), e1, e2);
      Ok(FreeIf(e2, bind.None?, resp.reg))
  }

  function PollStart(e: Emitter, loop: string): (r: Emitted)
    requires e.Valid()
    ensures r.Ok? ==> SameContext(e, r.value) && r.value.pool == e.pool && r.value.frames == e.frames
  {
    var e1 :- Push(e.(gensym := e.gensym + 1), Label(loop));
    Push(e1, CRC_RESET)
  }

  /** Branches back to `loop` while `resp` holds WAIT_STATE. */
  function PollAgain(e: Emitter, loop: string, resp: nat): (r: Emitted)
    requires e.Valid()
    ensures r.Ok? ==> SameContext(e, r.value)
  {
    match Alloc(e.pool)
    case None => Err(OutOfRegisters)
    case Some(k) =>
      var e1 :- Push(e.(pool := k.pool), Op("li", [Reg(k.reg), Num(WAIT_STATE_CODE)]));
      var e2 :- Push(e1, Op("beq", [Reg(resp), Reg(k.reg), Ident(loop)]));
      Ok(FreeIf(e2, true, k.reg))
  }

  /** Consumes the CRC byte, latches the residue and leaves the verdict to the frame. */
  function LowerExpect(e: Emitter, elseCode: Expr): (r: Emitted)
    requires e.Valid()
    ensures r.Ok? ==> SameContext(e, r.value)
  {
    if e.frames == [] then Err(Rejected) else
    var code :- EvalByte(elseCode, e.env);
    var e1 :- RecvOne(e, Discard);
    Latch(e1, code)
  }

  /** Latches the residue in a register that stays taken. */
  function Latch(e: Emitter, code: byte): (r: Emitted)
    requires e.Valid() && e.frames != []
    ensures r.Ok? ==> SameContext(e, r.value)
  {
    match Alloc(e.pool)
    case None => Err(OutOfRegisters)
    case Some(res) =>
      var e1 :- Push(e.(pool := res.pool), Op("rdsr", [Reg(res.reg), Ident("crc")]));
      Ok(Defer(e1.(gensym := e1.gensym + 1), Deferred(res.reg, FailLabel(e1.gensym), code)))
  }

  /** Adds a verdict to the innermost frame. */
  function Defer(e: Emitter, d: Deferred): (r: Emitter)
    requires e.Valid() && e.frames != [] && 1 <= d.reg < NUM_REGS
    ensures r.Valid() && SameContext(e, r)
  {
    var top := |e.frames| - 1;
    e.(frames := e.frames[top := e.frames[top] + [d]])
  }

  // ----- frames and expansions -----

  function OpenFrame(e: Emitter): (r: Emitted)
    requires e.Valid()
    ensures r.Ok? ==> r.value.frames == e.frames + [[]]
    ensures r.Ok? ==> SameContext(e, r.value.(frames := e.frames))
  {
    var e1 :- Push(e, CS_ASSERT);
    Ok(e1.(pool := Enter(e1.pool), frames := e1.frames + [[]]))
  }

  /** The verdict branches of a closed frame, each hoisting its `halt` to a trailer. */
  function PushVerdicts(e: Emitter, deferred: seq<Deferred>): (r: Emitted)
    requires e.Valid()
    ensures r.Ok? ==> SameContext(e, r.value) && r.value.frames == e.frames
    decreases |deferred|
  {
    if deferred == [] then Ok(e) else
    var d := deferred[0];
    var e1 :- Push(e, BnezLine(d));
    PushVerdicts(e1.(trailers := e1.trailers + [Trailer(d.target, d.code)]), deferred[1..])
  }

  /** CS# goes high first, unconditionally; only then are the verdicts branched on. */
  function CloseFrame(e: Emitter): (r: Emitted)
    requires e.Valid() && e.frames != []
    ensures r.Ok? ==> r.value.frames == e.frames[..|e.frames| - 1]
    ensures r.Ok? ==> SameContext(e.(frames := r.value.frames), r.value)
  {
    var top := |e.frames| - 1;
    var e1 :- Push(e.(frames := e.frames[..top]), CS_DEASSERT);
    var e2 :- PushVerdicts(e1, e.frames[top]);
    Ok(e2.(pool := Exit(e2.pool)))
  }

  /** Opens the scope of one expansion and charges it to the expansion budget. */
  function EnterExpansion(e: Emitter): (r: Emitted)
    requires e.Valid()
    ensures r.Ok? ==> SameContext(e, r.value)
  {
    if e.budgeted && e.expansions >= MAX_EXPANSIONS then Err(ExpansionBudget)
    else Ok(e.(expansions := e.expansions + 1, pool := Enter(e.pool)))
  }

  function ReserveAll(p: Pool, deferred: seq<Deferred>): (r: Pool)
    requires p.Valid() && forall d :: d in deferred ==> 1 <= d.reg < NUM_REGS
    ensures r.Valid()
    decreases |deferred|
  {
    if deferred == [] then p else ReserveAll(Reserve(p, deferred[0].reg), deferred[1..])
  }

  /** Closes the scope of one expansion but keeps the registers of pending verdicts. */
  function ExitExpansion(e: Emitter): (r: Emitter)
    requires e.Valid()
    ensures r.Valid() && SameContext(e, r)
  {
    var p := Exit(e.pool);
    if e.frames == [] then e.(pool := p) else e.(pool := ReserveAll(p, e.frames[|e.frames| - 1]))
  }

  predicate LegalInFrame(s: Stmt) { !(s.Pass? || s.Fail? || s.Config? || s.Frame?) }

  // ----- statements -----

  /** Statements without a body, a call or an unroll. */
  function EmitSimple(e: Emitter, s: Stmt): (r: Emitted)
    requires e.Valid() && !s.Frame? && !s.CallProc? && !s.Repeat?
    ensures r.Ok? ==> SameContext(e, r.value)
  {
    match s
    case Pass => Push(e, HaltLine(0))
    case Fail(code) => Copy(e, HALT, [code])
    case Raw(mnemonic, operands) => Copy(e, mnemonic, operands)
    case Send(bytes, appendCrc) =>
      var b :- EvalBytes(bytes, e.env);
      PushBytes(e, if appendCrc then b + [C.Crc8(b)] else b)
    case CrcRegion(sends) =>
      var b :- EvalSends(sends, e.env);
      PushBytes(e, b + [C.Crc8(b)])
    case Config(keywords) => Copy(e, SET_CONFIG, keywords)
    case Recv(targets) => RecvAll(e, targets)
    case WaitState(bind) => LowerWaitState(e, bind)
    case Expect(elseCode) => LowerExpect(e, elseCode)
  }

  /** A frame leaves the stack of frames as it was. */
  lemma FrameContext(e: Emitter, e1: Emitter, e2: Emitter, e3: Emitter)
    requires e1.frames == e.frames + [[]] && SameContext(e, e1.(frames := e.frames)) && SameContext(e1, e2)
    requires e3.frames == e2.frames[..|e2.frames| - 1] && SameContext(e2.(frames := e3.frames), e3)
    ensures SameContext(e, e3)
  {
    hide Prefix;
    PrefixTrans(e.lines, e1.lines, e2.lines);
    PrefixTrans(e.lines, e2.lines, e3.lines);
    PrefixTrans(e.trailers, e1.trailers, e2.trailers);
    PrefixTrans(e.trailers, e2.trailers, e3.trailers);
  }

  function EmitStmt(e: Emitter, s: Stmt): (r: Emitted)
    requires e.Valid()
    ensures r.Ok? ==> SameContext(e, r.value)
    decreases IdleProcs(e), s, 0
  {
    if e.frames != [] && !LegalInFrame(s) then Err(Rejected) else
    match s
    case Frame(body) =>
      var e1 :- OpenFrame(e);
      assert IdleProcs(e1) == IdleProcs(e);
      var e2 :- EmitBody(e1, body);
      var e3 :- CloseFrame(e2);
      FrameContext(e, e1, e2, e3);
      Ok(e3)
    case CallProc(name, args) => EmitCall(e, name, args)
    case Repeat(count, body) =>
      var n :- EvalInt(count, e.env);
      if !(0 <= n <= MAX_UNROLL) then Err(Rejected) else EmitRepeat(e, n, body)
    case _ => EmitSimple(e, s)
  }

  function EmitBody(e: Emitter, body: seq<Stmt>): (r: Emitted)
    requires e.Valid()
    ensures r.Ok? ==> SameContext(e, r.value)
    decreases IdleProcs(e), body, 0
  {
    if body == [] then Ok(e) else
    var e1 :- EmitStmt(e, body[0]);
    assert IdleProcs(e1) == IdleProcs(e);
    EmitBody(e1, body[1..])
  }

  /** The emitter as the body of `p` starts: the scope of the call, and `name` marked active. */
  function Inlined(e: Emitter, name: string, bindings: ConstEval.Scope): Emitter {
    e.(env := ChildValues(e.env, bindings), active := e.active + [name])
  }

  /** A `proc` call is expanded in place. */
  function EmitCall(e: Emitter, name: string, args: seq<Arg>): (r: Emitted)
    requires e.Valid()
    ensures r.Ok? ==> SameContext(e, r.value)
    decreases IdleProcs(e), args, 0
  {
    if name in e.env.fns || name !in e.procs then Err(Rejected)
    else if name in e.active then Err(Recursion(name))
    else
      var p := e.procs[name];
      var bindings :- BindArgs(name, p.params, args, e.env);
      var e1 :- EnterExpansion(e);
      var e2 := Inlined(e1, name, bindings);
      assert name in IdleProcs(e) && name !in IdleProcs(e2) && IdleProcs(e2) < IdleProcs(e);
      var e3 :- EmitBody(e2, p.body);
      Ok(ExitExpansion(e3.(env := e.env, active := e.active)))
  }

  /** `n` copies of the body, each in a scope of its own. */
  function EmitRepeat(e: Emitter, n: nat, body: seq<Stmt>): (r: Emitted)
    requires e.Valid()
    ensures r.Ok? ==> SameContext(e, r.value)
    decreases IdleProcs(e), body, 1, n
  {
    if n == 0 then Ok(e) else
    var e1 :- EnterExpansion(e);
    assert IdleProcs(e1) == IdleProcs(e);
    var e2 :- EmitBody(e1, body);
    var e3 := ExitExpansion(e2);
    assert IdleProcs(e3) == IdleProcs(e);
    EmitRepeat(e3, n - 1, body)
  }

  // ----- programs -----

  function PushTrailers(e: Emitter, trailers: seq<Trailer>): (r: Emitted)
    requires e.Valid()
    ensures r.Ok? ==> SameContext(e, r.value)
    decreases |trailers|
  {
    if trailers == [] then Ok(e) else
    var e1 :- Push(e, Label(trailers[0].target));
    var e2 :- Push(e1, HaltLine(trailers[0].code));
    PushTrailers(e2, trailers[1..])
  }

  function ProcTable(procs: seq<ProcDef>): map<string, ProcDef> {
    if procs == [] then map[] else
    var last := |procs| - 1;
    ProcTable(procs[..last])[procs[last].name := procs[last]]
  }

  function Start(budgeted: bool, procs: map<string, ProcDef>, env: Env): (e: Emitter)
    ensures e.Valid()
  {
    Emitter(budgeted, procs, env, [], [], EMPTY_POOL, 0, [], [], [], 0)
  }

  const PROLOGUE := [Directive("globl", [Ident("_start")]), Label("_start")]

  /** The entry label, the statements of the test, and the verdict trailers. */
  function EmitTest(e: Emitter, stmts: seq<Stmt>): (r: Emitted)
    requires e.Valid()
  {
    var e1 :- Push(e, PROLOGUE[0]);
    var e2 :- Push(e1, PROLOGUE[1]);
    var e3 :- EmitBody(e2, stmts);
    PushTrailers(e3.(trailers := []), e3.trailers)
  }
}
