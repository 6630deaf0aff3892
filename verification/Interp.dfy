/** What a test means, read directly from its syntax over a stream of received bytes. */
module Interp {
  import opened Prelude
  import opened Text
  import opened Asm
  import opened Encoder
  import opened Machine
  import opened Ast
  import opened ConstEval
  import opened Registers
  import Lexer
  import Printer
  import C = Crc8

  type Leased = n: nat | 1 <= n < NUM_REGS witness 1

  type LivePool = p: Pool | p.Valid() witness EMPTY_POOL

  /** A residue latched by an `expect`, where it was latched, and the status its failure halts with. */
  datatype Verdict = Verdict(reg: Leased, residue: byte, code: byte)

  /**
   * The bus device, the registers and which of them are lent out, and the verdicts the open frame
   * has collected so far.
   */
  datatype Position = Position(dev: Device, regs: Regs, pool: LivePool, verdicts: seq<Verdict>)

  datatype Outcome =
    | Next(at: Position)
    | Stop(dev: Device, status: Status)
    | Fault      // a compile-time error was met

  datatype Context = Context(procs: map<string, ProcDef>, env: Env, active: seq<string>, inFrame: bool)

  function Idle(c: Context): set<string> { c.procs.Keys - (set n | n in c.active) }

  /** The bytes on the bus, the first of them first. */
  function PutAll(dev: Device, bytes: seq<byte>): Device {
    dev.(log := dev.log + seq(|bytes|, k requires 0 <= k < |bytes| => Put(bytes[k])))
  }

  /** The bus after some of the sends of a region, and the bytes they sent. */
  datatype Sending = Sending(dev: Device, bytes: seq<byte>)

  /** The sends of a region, one after the other. */
  function SendEach(sends: seq<Expr>, env: Env, so: Sending): Option<Sending>
    decreases |sends|
  {
    if sends == [] then Some(so) else
    match EvalBytes(sends[0], env)
    case Err(_) => None
    case Ok(b) => SendEach(sends[1..], env, Sending(PutAll(so.dev, b), so.bytes + b))
  }

  /** Every send of a region, and then the CRC of all that was sent. */
  function SendRegion(sends: seq<Expr>, env: Env, dev: Device): Option<Device> {
    match SendEach(sends, env, Sending(dev, []))
    case None => None
    case Some(so) => Some(Logged(so.dev, Put(C.Crc8(so.bytes))))
  }

  /** What may stand between CS# low and CS# high. */
  predicate InFrame(s: Stmt) {
    s.Raw? || s.Send? || s.CrcRegion? || s.Recv? || s.WaitState? || s.Expect? || s.CallProc? || s.Repeat?
  }

  function Settled(p: LivePool, free: bool, reg: nat): LivePool { if free then Free(p, reg) else p }

  /** Receives one byte into a fresh register; a name keeps it until its scope closes. */
  function ReceiveOne(at: Position, name: Option<string>): Outcome {
    match Lend(at.pool, name)
    case None => Fault
    case Some(t) =>
      if at.dev.rx == [] then Stop(at.dev, Starved)
      else Next(at.(dev := Received(at.dev), regs := Write(at.regs, t.reg, at.dev.rx[0]),
                    pool := Settled(t.pool, name.None?, t.reg)))
  }

  function Receive(at: Position, targets: seq<RecvTarget>): Outcome
    decreases |targets|
  {
    if targets == [] then Next(at) else
    match ReceiveOne(at, match targets[0] case Bind(name) => Some(name) case Discard => None)
    case Next(at1) => Receive(at1, targets[1..])
    case out => out
  }

  /**
   * Receives response bytes into `resp` until one is not WAIT_STATE, which `k` holds to compare
   * with; the CRC covers that last byte only.
   */
  function PollInto(at: Position, resp: Leased, k: Leased): Outcome
    decreases |at.dev.rx|
  {
    var dev := at.dev.(crc := 0);
    if dev.rx == [] then Stop(dev, Starved) else
    var at1 := at.(dev := Received(dev), regs := Write(Write(at.regs, resp, dev.rx[0]), k, 0x0F));
    if dev.rx[0] == 0x0F then PollInto(at1, resp, k) else Next(at1)
  }

  function Poll(at: Position, bind: Option<string>): Outcome {
    match Lend(at.pool, bind)
    case None => Fault
    case Some(resp) =>
      match Alloc(resp.pool)
      case None => Fault
      case Some(k) =>
        match PollInto(at, resp.reg, k.reg)
        case Next(end) => Next(end.(pool := Settled(Free(k.pool, k.reg), bind.None?, resp.reg)))
        case out => out
  }

  /** Receives the CRC byte and remembers what the CRC then is, in a register that stays taken. */
  function ExpectCrc(at: Position, code: byte): Outcome {
    match ReceiveOne(at, None)
    case Next(at1) =>
      (match Alloc(at1.pool)
       case None => Fault
       case Some(t) =>
         Next(at1.(regs := Write(at1.regs, t.reg, at1.dev.crc), pool := t.pool,
                   verdicts := at1.verdicts + [Verdict(t.reg, at1.dev.crc, code)])))
    case out => out
  }

  /** A raw instruction acts on the registers as they are. */
  function RawEffect(mnemonic: string, operands: seq<Operand>, at: Position): Outcome {
    match Resolve(mnemonic, operands, map[])
    case Err(_) => Stop(at.dev, Undefined)
    case Ok(Jump(_, _, _, _)) => Stop(at.dev, Undefined)
    case Ok(LoadConst(rd, v)) => Next(at.(regs := Write(at.regs, rd, v)))
    case Ok(Plain(i)) =>
      var eff := Exec(i, at.regs, at.dev);
      if eff.status == Running then Next(at.(dev := eff.dev, regs := eff.regs)) else Stop(eff.dev, eff.status)
  }

  /** A numeral that is no status leaves a line without meaning. */
  function FailWith(code: Numeral, dev: Device): Outcome {
    match Lexer.ReadOperand(code)
    case Num(n) => Stop(dev, if 0 <= n <= 255 then Halted(n) else Undefined)
    case Ident(_) => Stop(dev, Undefined)
  }

  /** The code of the first verdict whose register is not zero. */
  function FirstFailing(verdicts: seq<Verdict>, regs: Regs): Option<byte>
    decreases |verdicts|
  {
    if verdicts == [] then None
    else if regs[verdicts[0].reg] != 0 then Some(verdicts[0].code)
    else FirstFailing(verdicts[1..], regs)
  }

  function OpenBus(dev: Device): Device { Logged(dev.(csLow := true), CsLow) }
  function CloseBus(dev: Device): Device { Logged(dev.(csLow := false), CsHigh) }

  function BeginFrame(at: Position): Position { Position(OpenBus(at.dev), at.regs, Enter(at.pool), []) }

  /** The end of a frame: CS# goes high, then the first failing verdict decides. */
  function EndFrame(outer: seq<Verdict>, at: Position): Outcome {
    var dev := CloseBus(at.dev);
    match FirstFailing(at.verdicts, at.regs)
    case None => Next(Position(dev, at.regs, Exit(at.pool), outer))
    case Some(code) => Stop(dev, Halted(code))
  }

  function Retain(p: LivePool, verdicts: seq<Verdict>): LivePool
    decreases |verdicts|
  {
    if verdicts == [] then p else Retain(Reserve(p, verdicts[0].reg), verdicts[1..])
  }

  /** The scope of an expansion closes; the registers of verdicts still to come stay taken. */
  function Leave(at: Position): Position { at.(pool := Retain(Exit(at.pool), at.verdicts)) }

  function InterpSimple(c: Context, s: Stmt, at: Position): Outcome
    requires !s.Frame? && !s.CallProc? && !s.Repeat?
  {
    match s
    case Pass => Stop(at.dev, Halted(0))
    case Fail(code) => FailWith(code, at.dev)
    case Raw(mnemonic, operands) => RawEffect(mnemonic, Printer.ReadAll(operands), at)
    case Send(bytes, appendCrc) =>
      (match EvalBytes(bytes, c.env)
       case Err(_) => Fault
       case Ok(b) => Next(at.(dev := PutAll(at.dev, if appendCrc then b + [C.Crc8(b)] else b))))
    case CrcRegion(sends) =>
      (match SendRegion(sends, c.env, at.dev)
       case None => Fault
       case Some(dev) => Next(at.(dev := dev)))
    case Config(keywords) => RawEffect("set_config", Printer.ReadAll(keywords), at)
    case Recv(targets) => Receive(at, targets)
    case WaitState(bind) => Poll(at, bind)
    case Expect(elseCode) =>
      (match EvalByte(elseCode, c.env)
       case Err(_) => Fault
       case Ok(code) => if !c.inFrame then Fault else ExpectCrc(at, code))
  }

  function InterpStmt(c: Context, s: Stmt, at: Position): Outcome
    decreases Idle(c), s, 0
  {
    if c.inFrame && !InFrame(s) then Fault else
    match s
    case Frame(body) =>
      assert Idle(c.(inFrame := true)) == Idle(c);
      (match InterpBody(c.(inFrame := true), body, BeginFrame(at))
       case Next(end) => EndFrame(at.verdicts, end)
       case out => out)
    case CallProc(name, args) => InterpCall(c, name, args, at)
    case Repeat(count, body) =>
      (match EvalInt(count, c.env)
       case Err(_) => Fault
       case Ok(n) => if !(0 <= n <= 1024) then Fault else InterpRepeat(c, n, body, at))
    case _ => InterpSimple(c, s, at)
  }

  function InterpBody(c: Context, body: seq<Stmt>, at: Position): Outcome
    decreases Idle(c), body, 0
  {
    if body == [] then Next(at) else
    match InterpStmt(c, body[0], at)
    case Next(at') => InterpBody(c, body[1..], at')
    case out => out
  }

  /** A `proc` body sees the module constants and its own parameters. */
  function InterpCall(c: Context, name: string, args: seq<Arg>, at: Position): Outcome
    decreases Idle(c), args, 0
  {
    if name in c.env.fns || name !in c.procs || name in c.active then Fault else
    var p := c.procs[name];
    match BindArgs(name, p.params, args, c.env)
    case Err(_) => Fault
    case Ok(bindings) =>
      var c' := c.(env := ChildValues(c.env, bindings), active := c.active + [name]);
      assert name in Idle(c) && name !in Idle(c') && Idle(c') < Idle(c);
      match InterpBody(c', p.body, at.(pool := Enter(at.pool)))
      case Next(end) => Next(Leave(end))
      case out => out
  }

  function InterpRepeat(c: Context, n: nat, body: seq<Stmt>, at: Position): Outcome
    decreases Idle(c), body, 1, n
  {
    if n == 0 then Next(at) else
    match InterpBody(c, body, at.(pool := Enter(at.pool)))
    case Next(end) => InterpRepeat(c, n - 1, body, Leave(end))
    case out => out
  }

  /** An idle bus, cleared registers and nothing lent. */
  function Begin(rx: seq<byte>): Position { Position(Initial(rx).dev, ZERO_REGS, EMPTY_POOL, []) }

  /** A whole test. */
  function InterpTest(procs: map<string, ProcDef>, env: Env, stmts: seq<Stmt>, rx: seq<byte>): Outcome {
    InterpBody(Context(procs, env, [], false), stmts, Begin(rx))
  }
}
