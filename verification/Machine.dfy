/** The machine that runs instruction words: registers, the bus device and the program counter. */
module Machine {
  import opened Prelude
  import opened Isa
  import B = Bits
  import C = Crc8

  /** What an observer of the bus and of the trace ring sees. */
  datatype Event =
    | CsLow
    | CsHigh
    | Put(b: byte)
    | PutBits(n: BitCount, b: byte)
    | Got(b: byte)
    | GotBits(n: BitCount, v: byte)
    | Turn(clocks: nat)
    | RstLow
    | RstHigh
    | Alert(v: byte)
    | Waited(cond: WaitCond, timeout: WaitTimeout, met: byte)
    | Configured(cfg: Cfg6)
    | Marked(tag: Imm11, payload: u32)

  /**
   * Everything the register file does not hold. `rx` is the input still to come, one element for
   * each sample the program takes, and `crc` the CRC over the bytes received since the last reset.
   */
  datatype Device = Device(rx: seq<byte>, crc: byte, csLow: bool, rstLow: bool, log: seq<Event>)

  datatype Status =
    | Running
    | Halted(code: byte)
    | Trapped(reason: nat)
    | Starved       // waiting for input that never comes
    | OffEnd        // the program counter left the program
    | Undefined     // a line without meaning

  type Regs = r: seq<u32> | |r| == 16 witness [0, 0, 0, 0, 0, 0, 0, 0, 0, 0, 0, 0, 0, 0, 0, 0]

  const ZERO_REGS: Regs := [0, 0, 0, 0, 0, 0, 0, 0, 0, 0, 0, 0, 0, 0, 0, 0]

  /** A register file of 16; x0 reads as zero and ignores writes. */
  function Read(regs: Regs, r: Reg): u32 {
    if r % 16 == 0 then 0 else regs[r % 16]
  }

  function Write(regs: Regs, r: Reg, v: u32): Regs {
    if r % 16 == 0 then regs else regs[r % 16 := v]
  }

  function Sext11(i: Imm11): int { if i < 0x400 then i else i - 0x800 }

  function Sext21(i: Imm21): int { if i < 0x10_0000 then i else i - 0x20_0000 }

  function Wrap(n: int): u32 { n % 0x1_0000_0000 }

  function ShiftValue(op: ShiftOp, v: u32, amt: Amt5): u32 {
    match op
    case Sll => B.ShiftLeft(v, amt)
    case Srl => B.ShiftRight(v, amt)
    case Sra => B.ShiftSigned(v, amt)
  }

  function BitOp(i: Instr, a: u32, b: u32): u32 {
    B.Powers();
    B.Bitwise(if i.And? || i.Andi? then B.AndGate else if i.Or? || i.Ori? then B.OrGate else B.XorGate, a, b, 32)
  }

  predicate IsData(i: Instr) {
    i.LoadImm? || i.Lui? || i.Mov? || i.Add? || i.Addi? || i.Sub? || i.And? || i.Andi? ||
    i.Or? || i.Ori? || i.Xor? || i.Xori? || i.Shift?
  }

  predicate IsBranch(i: Instr) { i.Beq? || i.Bne? || i.Bltu? || i.Bgeu? }

  /** The value a DATA instruction writes to its `rd`. */
  function DataValue(i: Instr, regs: Regs): u32
    requires IsData(i)
  {
    match i
    case LoadImm(_, imm) => Wrap(Sext21(imm))
    case Lui(_, imm) => imm * 0x800
    case Mov(_, rs) => Read(regs, rs)
    case Add(_, a, b) => Wrap(Read(regs, a) + Read(regs, b))
    case Addi(_, a, imm) => Wrap(Read(regs, a) + Sext11(imm))
    case Sub(_, a, b) => Wrap(Read(regs, a) - Read(regs, b))
    case And(_, a, b) => BitOp(i, Read(regs, a), Read(regs, b))
    case Andi(_, a, imm) => BitOp(i, Read(regs, a), Wrap(Sext11(imm)))
    case Or(_, a, b) => BitOp(i, Read(regs, a), Read(regs, b))
    case Ori(_, a, imm) => BitOp(i, Read(regs, a), Wrap(Sext11(imm)))
    case Xor(_, a, b) => BitOp(i, Read(regs, a), Read(regs, b))
    case Xori(_, a, imm) => BitOp(i, Read(regs, a), Wrap(Sext11(imm)))
    case Shift(_, a, op, amt) => ShiftValue(op, Read(regs, a), amt)
  }

  /** The effect of one instruction that is not a branch. */
  datatype Effect = Effect(regs: Regs, dev: Device, status: Status)

  function Logged(dev: Device, e: Event): Device { dev.(log := dev.log + [e]) }

  /** CS# and RESET# high; an observer sees the pins that move. */
  function PinsSafe(dev: Device): Device {
    var d := if dev.csLow then Logged(dev.(csLow := false), CsHigh) else dev;
    if d.rstLow then Logged(d.(rstLow := false), RstHigh) else d
  }

  /** Traps drive the pins safe. */
  function Trap(regs: Regs, dev: Device, reason: nat): Effect { Effect(regs, PinsSafe(dev), Trapped(reason)) }

  function Turned(dev: Device, clocks: nat): Device {
    if clocks == 0 then dev else Logged(dev, Turn(clocks))
  }

  /** Version 1 accepts controller, single-lane, 20 MHz, and either alert source. */
  predicate ConfigSupported(p: Cfg6) { p < 2 }

  /** The device after sampling the byte `b`, which is also folded into the CRC. */
  function Received(dev: Device): Device
    requires dev.rx != []
  {
    Logged(dev.(rx := dev.rx[1..], crc := C.Update(dev.crc, dev.rx[0])), Got(dev.rx[0]))
  }

  function Sample(i: Instr, regs: Regs, dev: Device): Effect
    requires i.GetByte? || i.GetBits? || i.GetAlert? || i.WaitOn?
  {
    if dev.rx == [] then Effect(regs, dev, Starved) else
    var b := dev.rx[0];
    var dev' := dev.(rx := dev.rx[1..]);
    match i
    case GetByte(rd) => Effect(Write(regs, rd, b), Received(dev), Running)
    case GetBits(rd, n) =>
      var v := b % Pow2(n);
      Effect(Write(regs, rd, v), Logged(dev', GotBits(n, v)), Running)
    case GetAlert(rd) => Effect(Write(regs, rd, b % 2), Logged(dev', Alert(b % 2)), Running)
    case WaitOn(rd, c, t) => Effect(Write(regs, rd, b % 2), Logged(dev', Waited(c, t, b % 2)), Running)
  }

  function Pow2(n: nat): (r: nat)
    requires n <= 8
    ensures 1 <= r <= 0x100
  {
    match n
    case 0 => 1
    case 1 => 2
    case 2 => 4
    case 3 => 8
    case 4 => 16
    case 5 => 32
    case 6 => 64
    case 7 => 128
    case 8 => 256
  }

  function Exec(i: Instr, regs: Regs, dev: Device): Effect
    requires !IsBranch(i)
  {
    if IsData(i) then Effect(Write(regs, i.rd, DataValue(i, regs)), dev, Running) else
    match i
    case CsAssert => Effect(regs, Logged(dev.(csLow := true), CsLow), Running)
    case CsDeassert => Effect(regs, Logged(dev.(csLow := false), CsHigh), Running)
    case PutByteImm(b) => Effect(regs, Logged(dev, Put(b)), Running)
    case PutByteReg(rs) => Effect(regs, Logged(dev, Put(Read(regs, rs) % 0x100)), Running)
    case PutBitsImm(n, b) => Effect(regs, Logged(dev, Event.PutBits(n, b)), Running)
    case PutBitsReg(rs, n) => Effect(regs, Logged(dev, Event.PutBits(n, Read(regs, rs) % 0x100)), Running)
    case TarImm(n) => Effect(regs, Turned(dev, n), Running)
    case TarReg(rs) => Effect(regs, Turned(dev, Read(regs, rs) % 16), Running)
    case RstAssert => Effect(regs, Logged(dev.(rstLow := true), RstLow), Running)
    case RstDeassert => Effect(regs, Logged(dev.(rstLow := false), RstHigh), Running)
    case Halt(s) => Effect(regs, dev, Halted(s))
    case SetConfig(p) =>
      if ConfigSupported(p) then Effect(regs, Logged(dev, Configured(p)), Running) else Trap(regs, dev, 2)
    case Mark(tag, rs) => Effect(regs, Logged(dev, Marked(tag, Read(regs, rs))), Running)
    case CrcReset => Effect(regs, dev.(crc := 0), Running)
    case Rdsr(rd, sr) =>
      if sr == 0 then Effect(Write(regs, rd, dev.crc), dev, Running) else Trap(regs, dev, 3)
    case GetByte(_) => Sample(i, regs, dev)
    case GetBits(_, _) => Sample(i, regs, dev)
    case GetAlert(_) => Sample(i, regs, dev)
    case WaitOn(_, _, _) => Sample(i, regs, dev)
  }

  datatype BranchOp = Equal | NotEqual | Below | NotBelow

  function Taken(op: BranchOp, a: u32, b: u32): bool {
    match op
    case Equal => a == b
    case NotEqual => a != b
    case Below => a < b
    case NotBelow => a >= b
  }

  function BranchOpOf(i: Instr): BranchOp
    requires IsBranch(i)
  {
    if i.Beq? then Equal else if i.Bne? then NotEqual else if i.Bltu? then Below else NotBelow
  }

  /** A machine state; `pc` counts words here and lines in the label form. */
  datatype State = State(pc: int, regs: Regs, dev: Device, status: Status)

  function Initial(rx: seq<byte>): State {
    State(0, ZERO_REGS, Device(rx, 0, false, false, []), Running)
  }

  /** The next state after an instruction that is not a branch. */
  function After(s: State, e: Effect): State {
    State(if e.status == Running then s.pc + 1 else s.pc, e.regs, e.dev, e.status)
  }

  function ExecAt(s: State, i: Instr): State {
    if IsBranch(i) then
      if Taken(BranchOpOf(i), Read(s.regs, i.rs1), Read(s.regs, i.rs2)) then
        s.(pc := s.pc + Sext11(i.off))
      else
        s.(pc := s.pc + 1)
    else
      After(s, Exec(i, s.regs, s.dev))
  }

  function StepWord(words: seq<u32>, s: State): State {
    if s.status != Running then s
    else if !(0 <= s.pc < |words|) then s.(status := OffEnd)
    else
      match Decode(words[s.pc])
      case Ok(i) => ExecAt(s, i)
      case Err(_) => After(s, Trap(s.regs, s.dev, 1))
  }

  function RunWords(words: seq<u32>, n: nat, s: State): State {
    if n == 0 then s else RunWords(words, n - 1, StepWord(words, s))
  }

  lemma {:induction false} RunWordsAdds(words: seq<u32>, a: nat, b: nat, s: State)
    ensures RunWords(words, a + b, s) == RunWords(words, b, RunWords(words, a, s))
  {
    if a > 0 {
      RunWordsAdds(words, a - 1, b, StepWord(words, s));
    }
  }

  lemma {:induction false} WordsStay(words: seq<u32>, n: nat, s: State)
    requires s.status != Running
    ensures RunWords(words, n, s) == s
    decreases n
  {
    if n > 0 {
      WordsStay(words, n - 1, s);
    }
  }

  /** A program stops in one state only, however long one looks. */
  lemma StopsOnce(words: seq<u32>, m: nat, n: nat, s: State)
    requires RunWords(words, m, s).status != Running && RunWords(words, n, s).status != Running
    ensures RunWords(words, m, s) == RunWords(words, n, s)
  {
    hide RunWords;
    if m <= n {
      RunWordsAdds(words, m, n - m, s);
      WordsStay(words, n - m, RunWords(words, m, s));
    } else {
      RunWordsAdds(words, n, m - n, s);
      WordsStay(words, m - n, RunWords(words, n, s));
    }
  }
}
