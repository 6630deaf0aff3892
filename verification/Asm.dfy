/** The assembler's line syntax and its symbol table. */
module Asm {
  import opened Prelude
  import opened Text

  datatype Operand = Ident(name: string) | Num(n: i64)

  datatype Line =
    | Label(name: string)
    | Directive(name: string, args: seq<Operand>)
    | Op(mnemonic: string, operands: seq<Operand>)

  datatype AsmError = BadEqu | DuplicateSymbol | BadDirective | BadLine | TooLong

  datatype Sym = Equ(v: i64) | LabelAt(addr: u16)

  type Symbols = map<string, Sym>

  /** The operand naming physical register `n`. */
  function RegName(n: nat): string { "x" + Dec(n) }
}

/** Lowering of mnemonics and pseudo-operations to instructions. */
module Encoder {
  import opened Prelude
  import opened Text
  import opened Isa
  import opened Machine
  import opened Asm

  /** An instruction after which control continues with the next one, if it continues. */
  type Straight = i: Instr | !IsBranch(i) witness CsAssert

  /** What a line asks for once its operands are resolved, before addresses are known. */
  datatype Meaning =
    | Plain(i: Straight)
    | LoadConst(rd: Reg, v: u32)
    | Jump(op: BranchOp, rs1: Reg, rs2: Reg, target: string)

  type Resolved = Result<Meaning, AsmError>

  /** An operand together with its value as a constant, if it has one. */
  datatype Actual = Actual(op: Operand, imm: Result<i64, AsmError>)

  function Args(ops: seq<Operand>, syms: Symbols): (r: seq<Actual>)
    ensures |r| == |ops|
    ensures forall k :: 0 <= k < |ops| ==> r[k] == Actual(ops[k], ResolveImm(ops[k], syms))
  {
    if ops == [] then [] else [Actual(ops[0], ResolveImm(ops[0], syms))] + Args(ops[1..], syms)
  }

  /** `xN` or an ABI name, as a register number below 32. */
  function RegNumber(name: string): (r: Option<nat>)
    ensures r.Some? ==> r.value < 32
  {
    if name != [] && name[0] == 'x' && ParseNat(name[1..]).Some? then
      var n := ParseNat(name[1..]).value;
      if n <= 31 then Some(n) else None
    else
      AbiNumber(name)
  }

  function AbiNumber(name: string): (r: Option<nat>)
    ensures r.Some? ==> r.value < 32
  {
    match name
    case "zero" => Some(0)
    case "ra" => Some(1)
    case "sp" => Some(2)
    case "gp" => Some(3)
    case "tp" => Some(4)
    case "t0" => Some(5)
    case "t1" => Some(6)
    case "t2" => Some(7)
    case "s0" => Some(8)
    case "fp" => Some(8)
    case "s1" => Some(9)
    case "a0" => Some(10)
    case "a1" => Some(11)
    case "a2" => Some(12)
    case "a3" => Some(13)
    case "a4" => Some(14)
    case "a5" => Some(15)
    case "a6" => Some(16)
    case "a7" => Some(17)
    case "s2" => Some(18)
    case "s3" => Some(19)
    case "s4" => Some(20)
    case "s5" => Some(21)
    case "s6" => Some(22)
    case "s7" => Some(23)
    case "s8" => Some(24)
    case "s9" => Some(25)
    case "s10" => Some(26)
    case "s11" => Some(27)
    case "t3" => Some(28)
    case "t4" => Some(29)
    case "t5" => Some(30)
    case "t6" => Some(31)
    case _ => None
  }

  /** A register operand must lie in the 16-register window. */
  function ResolveReg(op: Operand): (r: Result<Reg, AsmError>)
    ensures r.Ok? ==> r.value < 16
  {
    match op
    case Num(_) => Err(BadLine)
    case Ident(name) =>
      match RegNumber(name)
      case None => Err(BadLine)
      case Some(n) => if n < 16 then Ok(n) else Err(BadLine)
  }

  predicate IsRegister(op: Operand) { op.Ident? && RegNumber(op.name).Some? }

  /** A number or a `.equ` constant; a label is not a constant. */
  function ResolveImm(op: Operand, syms: Symbols): Result<i64, AsmError> {
    match op
    case Num(n) => Ok(n)
    case Ident(name) =>
      if name in syms && syms[name].Equ? then Ok(syms[name].v) else Err(BadLine)
  }

  function InRange(a: Actual, lo: i64, hi: i64): (r: Result<i64, AsmError>)
    ensures r.Ok? ==> lo <= r.value <= hi
  {
    var v :- a.imm;
    if lo <= v <= hi then Ok(v) else Err(BadLine)
  }

  /** The low `k`-bit pattern of a signed value, for k = 11 and 21. */
  function Pattern11(v: int): Imm11 { v % 0x800 }
  function Pattern21(v: int): Imm21 { v % 0x20_0000 }

  function SignedImm11(a: Actual): Result<Imm11, AsmError> {
    var v :- InRange(a, -1024, 1023);
    Ok(Pattern11(v))
  }

  /** The 32-bit pattern of an `li` constant. */
  function LiValue(a: Actual): Result<u32, AsmError> {
    var v :- InRange(a, -0x8000_0000, 0xFFFF_FFFF);
    Ok(Wrap(v))
  }

  /** The value of a 32-bit pattern read as a signed number. */
  function Signed(v: u32): int { if v < 0x8000_0000 then v else v - 0x1_0000_0000 }

  /** The one or two instructions that load `v`. */
  function TileLi(rd: Reg, v: u32): (r: seq<Instr>)
    ensures 1 <= |r| <= 2
    ensures forall k :: 0 <= k < |r| ==> !IsBranch(r[k])
  {
    if -0x10_0000 <= Signed(v) < 0x10_0000 then
      [LoadImm(rd, Pattern21(Signed(v)))]
    else
      var low11 := v % 0x800;
      var lo := if low11 >= 0x400 then low11 - 0x800 else low11;
      var hi: Imm21 := Wrap(v - lo) / 0x800;
      if lo == 0 then [Lui(rd, hi)] else [Lui(rd, hi), Addi(rd, rd, Pattern11(lo))]
  }

  /** Words taken by one line; an `li` that cannot be sized counts as one. */
  function WordCount(mnemonic: string, operands: seq<Operand>, syms: Symbols): (n: nat)
    ensures 1 <= n <= 2
  {
    if mnemonic == "li" && |operands| == 2 && LiValue(Args(operands, syms)[1]).Ok? then
      |TileLi(0, LiValue(Args(operands, syms)[1]).value)|
    else
      1
  }

  function RoleBit(s: string): Option<nat> {
    match s
    case "controller" => Some(0)
    case "target" => Some(1)
    case _ => None
  }

  function IoBits(s: string): Option<nat> {
    match s
    case "x1" => Some(0)
    case "x2" => Some(1)
    case "x4" => Some(2)
    case _ => None
  }

  function SckBits(s: string): Option<nat> {
    match s
    case "sck20" => Some(0)
    case "sck33" => Some(1)
    case "sck50" => Some(2)
    case "sck66" => Some(3)
    case _ => None
  }

  function AlertBit(s: string): Option<nat> {
    match s
    case "alert_pin" => Some(0)
    case "alert_io1" => Some(1)
    case _ => None
  }

  function Keyword(a: Actual): string { if a.op.Ident? then LowerCase(a.op.name) else "" }

  type Encoded = Result<Straight, AsmError>

  /** Keywords are case-insensitive; the packed payload must be one version 1 supports. */
  function ResolveConfig(a: seq<Actual>): Encoded {
    if |a| != 4 then Err(BadLine) else
    var role, io := RoleBit(Keyword(a[0])), IoBits(Keyword(a[1]));
    var sck, alert := SckBits(Keyword(a[2])), AlertBit(Keyword(a[3]));
    if role.None? || io.None? || sck.None? || alert.None? then Err(BadLine) else
    var p := role.value * 32 + io.value * 8 + sck.value * 2 + alert.value;
    if p < 64 && ConfigSupported(p) then Ok(SetConfig(p)) else Err(BadLine)
  }

  function ResolveSr(a: Actual): Result<Sr5, AsmError> {
    if a.op.Ident? && LowerCase(a.op.name) == "crc" then Ok(0) else
    var v :- InRange(a, 0, 31);
    Ok(v)
  }

  // Operand shapes.

  function NoOperands(a: seq<Actual>, i: Straight): Encoded {
    if a == [] then Ok(i) else Err(BadLine)
  }

  function OneReg(a: seq<Actual>): Result<Reg, AsmError> {
    if |a| != 1 then Err(BadLine) else ResolveReg(a[0].op)
  }

  datatype Triple = Triple(x: Reg, y: Reg, z: Reg)

  function ThreeRegs(a: seq<Actual>): Result<Triple, AsmError> {
    if |a| != 3 then Err(BadLine) else
    var x :- ResolveReg(a[0].op);
    var y :- ResolveReg(a[1].op);
    var z :- ResolveReg(a[2].op);
    Ok(Triple(x, y, z))
  }

  datatype Pair = Pair(x: Reg, y: Reg, imm: Imm11)

  function RegRegImm(a: seq<Actual>): Result<Pair, AsmError> {
    if |a| != 3 then Err(BadLine) else
    var x :- ResolveReg(a[0].op);
    var y :- ResolveReg(a[1].op);
    var i :- SignedImm11(a[2]);
    Ok(Pair(x, y, i))
  }

  function ShiftBy(a: seq<Actual>, op: ShiftOp): Encoded {
    if |a| != 3 then Err(BadLine) else
    var x :- ResolveReg(a[0].op);
    var y :- ResolveReg(a[1].op);
    var n :- InRange(a[2], 0, 31);
    Ok(Shift(x, y, op, n))
  }

  function ResolvePut(a: seq<Actual>): Encoded {
    if |a| != 1 then Err(BadLine)
    else if IsRegister(a[0].op) then
      var r :- ResolveReg(a[0].op);
      Ok(PutByteReg(r))
    else
      var b :- InRange(a[0], 0, 255);
      Ok(PutByteImm(b))
  }

  function ResolvePutBits(a: seq<Actual>): Encoded {
    if |a| != 2 then Err(BadLine)
    else if IsRegister(a[0].op) then
      var r :- ResolveReg(a[0].op);
      var n :- InRange(a[1], 1, 8);
      Ok(PutBitsReg(r, n))
    else
      var n :- InRange(a[0], 1, 8);
      var b :- InRange(a[1], 0, 255);
      Ok(PutBitsImm(n, b))
  }

  function ResolveTar(a: seq<Actual>): Encoded {
    if |a| != 1 then Err(BadLine)
    else if IsRegister(a[0].op) then
      var r :- ResolveReg(a[0].op);
      Ok(TarReg(r))
    else
      var n :- InRange(a[0], 0, 15);
      Ok(TarImm(n))
  }

  function ResolveMove(a: seq<Actual>): Encoded {
    if |a| != 2 then Err(BadLine) else
    var x :- ResolveReg(a[0].op);
    var y :- ResolveReg(a[1].op);
    Ok(Mov(x, y))
  }

  /** The mnemonics the assembler knows; `mv` is another spelling of `mov`. */
  datatype Mnemonic =
    | MCsAssert | MCsDeassert | MRstAssert | MRstDeassert | MCrcReset | MNop | MPutByte | MPutBits
    | MTar | MGetByte | MGetBits | MGetAlert | MHalt | MWaitOn | MSetConfig | MMark
    | MLoadImm | MLui | MMov | MAdd | MSub | MAnd | MOr | MXor
    | MAddi | MAndi | MOri | MXori | MSll | MSrl | MSra | MRdsr
    | MBeq | MBne | MBltu | MBgeu | MLi | MJ | MBeqz | MBnez
    | MUnknown

  function MnemonicOf(s: string): Mnemonic {
    match s
    case "cs_assert" => MCsAssert
    case "cs_deassert" => MCsDeassert
    case "rst_assert" => MRstAssert
    case "rst_deassert" => MRstDeassert
    case "crc_reset" => MCrcReset
    case "nop" => MNop
    case "put_byte" => MPutByte
    case "put_bits" => MPutBits
    case "tar" => MTar
    case "get_byte" => MGetByte
    case "get_bits" => MGetBits
    case "get_alert" => MGetAlert
    case "halt" => MHalt
    case "wait_on" => MWaitOn
    case "set_config" => MSetConfig
    case "mark" => MMark
    case "load_imm" => MLoadImm
    case "lui" => MLui
    case "mov" => MMov
    case "mv" => MMov
    case "add" => MAdd
    case "sub" => MSub
    case "and" => MAnd
    case "or" => MOr
    case "xor" => MXor
    case "addi" => MAddi
    case "andi" => MAndi
    case "ori" => MOri
    case "xori" => MXori
    case "sll" => MSll
    case "srl" => MSrl
    case "sra" => MSra
    case "rdsr" => MRdsr
    case "beq" => MBeq
    case "bne" => MBne
    case "bltu" => MBltu
    case "bgeu" => MBgeu
    case "li" => MLi
    case "j" => MJ
    case "beqz" => MBeqz
    case "bnez" => MBnez
    case _ => MUnknown
  }

  /** The operations with immediate fields. */
  function ResolveMixed(m: Mnemonic, a: seq<Actual>): Encoded {
    match m
    case MGetBits =>
      if |a| != 2 then Err(BadLine) else
      var r :- ResolveReg(a[0].op);
      var n :- InRange(a[1], 1, 8);
      Ok(GetBits(r, n))
    case MHalt =>
      if |a| != 1 then Err(BadLine) else
      var s :- InRange(a[0], 0, 255);
      Ok(Halt(s))
    case MWaitOn =>
      if |a| != 3 then Err(BadLine) else
      var r :- ResolveReg(a[0].op);
      var c :- InRange(a[1], 0, 3);
      var t :- InRange(a[2], 0, 511);
      Ok(WaitOn(r, c, t))
    case MMark =>
      if |a| != 2 then Err(BadLine) else
      var t :- InRange(a[0], 0, 2047);
      var r :- ResolveReg(a[1].op);
      Ok(Mark(t, r))
    case MLoadImm =>
      if |a| != 2 then Err(BadLine) else
      var r :- ResolveReg(a[0].op);
      var v :- InRange(a[1], -0x10_0000, 0xF_FFFF);
      Ok(LoadImm(r, Pattern21(v)))
    case MLui =>
      if |a| != 2 then Err(BadLine) else
      var r :- ResolveReg(a[0].op);
      var v :- InRange(a[1], 0, 0x1F_FFFF);
      Ok(Lui(r, v))
    case MRdsr =>
      if |a| != 2 then Err(BadLine) else
      var r :- ResolveReg(a[0].op);
      var sr :- ResolveSr(a[1]);
      Ok(Rdsr(r, sr))
    case _ => Err(BadLine)
  }

  /** Pin and bus operations. */
  function ResolveBus(m: Mnemonic, a: seq<Actual>): Encoded {
    match m
    case MCsAssert => NoOperands(a, CsAssert)
    case MCsDeassert => NoOperands(a, CsDeassert)
    case MRstAssert => NoOperands(a, RstAssert)
    case MRstDeassert => NoOperands(a, RstDeassert)
    case MCrcReset => NoOperands(a, CrcReset)
    case MPutByte => ResolvePut(a)
    case MPutBits => ResolvePutBits(a)
    case MTar => ResolveTar(a)
    case MGetByte => (var r :- OneReg(a); Ok(GetByte(r)))
    case MGetAlert => (var r :- OneReg(a); Ok(GetAlert(r)))
    case MSetConfig => ResolveConfig(a)
    case _ => ResolveMixed(m, a)
  }

  /** Every operation that stands for exactly one instruction and is not a branch. */
  function ResolvePlain(m: Mnemonic, a: seq<Actual>): Encoded {
    match m
    case MNop => NoOperands(a, Addi(0, 0, 0))
    case MMov => ResolveMove(a)
    case MAdd => (var t :- ThreeRegs(a); Ok(Add(t.x, t.y, t.z)))
    case MSub => (var t :- ThreeRegs(a); Ok(Sub(t.x, t.y, t.z)))
    case MAnd => (var t :- ThreeRegs(a); Ok(And(t.x, t.y, t.z)))
    case MOr => (var t :- ThreeRegs(a); Ok(Or(t.x, t.y, t.z)))
    case MXor => (var t :- ThreeRegs(a); Ok(Xor(t.x, t.y, t.z)))
    case MAddi => (var t :- RegRegImm(a); Ok(Addi(t.x, t.y, t.imm)))
    case MAndi => (var t :- RegRegImm(a); Ok(Andi(t.x, t.y, t.imm)))
    case MOri => (var t :- RegRegImm(a); Ok(Ori(t.x, t.y, t.imm)))
    case MXori => (var t :- RegRegImm(a); Ok(Xori(t.x, t.y, t.imm)))
    case MSll => ShiftBy(a, Sll)
    case MSrl => ShiftBy(a, Srl)
    case MSra => ShiftBy(a, Sra)
    case _ => ResolveBus(m, a)
  }

  function Target(a: Actual): Result<string, AsmError> {
    if a.op.Ident? then Ok(a.op.name) else Err(BadLine)
  }

  function BranchTo(a: seq<Actual>, op: BranchOp): (r: Resolved)
    ensures r.Ok? ==> r.value.Jump?
  {
    if |a| != 3 then Err(BadLine) else
    var x :- ResolveReg(a[0].op);
    var y :- ResolveReg(a[1].op);
    var t :- Target(a[2]);
    Ok(Jump(op, x, y, t))
  }

  function BranchZero(a: seq<Actual>, op: BranchOp): (r: Resolved)
    ensures r.Ok? ==> r.value.Jump?
  {
    if |a| != 2 then Err(BadLine) else
    var x :- ResolveReg(a[0].op);
    var t :- Target(a[1]);
    Ok(Jump(op, x, 0, t))
  }

  predicate JumpMnemonic(m: Mnemonic) {
    m.MBeq? || m.MBne? || m.MBltu? || m.MBgeu? || m.MBeqz? || m.MBnez? || m.MJ?
  }

  function ResolveJump(m: Mnemonic, a: seq<Actual>): (r: Resolved)
    requires JumpMnemonic(m)
    ensures r.Ok? ==> r.value.Jump?
  {
    match m
    case MBeq => BranchTo(a, Equal)
    case MBne => BranchTo(a, NotEqual)
    case MBltu => BranchTo(a, Below)
    case MBgeu => BranchTo(a, NotBelow)
    case MBeqz => BranchZero(a, Equal)
    case MBnez => BranchZero(a, NotEqual)
    case MJ =>
      if |a| != 1 then Err(BadLine) else
      var t :- Target(a[0]);
      Ok(Jump(Equal, 0, 0, t))
  }

  function ResolveOp(m: Mnemonic, a: seq<Actual>): Resolved {
    if m.MLi? then
      if |a| != 2 then Err(BadLine) else
      var r :- ResolveReg(a[0].op);
      var v :- LiValue(a[1]);
      Ok(LoadConst(r, v))
    else if JumpMnemonic(m) then
      ResolveJump(m, a)
    else
      var i :- ResolvePlain(m, a);
      Ok(Plain(i))
  }

  /** One instruction line, resolved. Unsupported and unknown mnemonics are errors. */
  function Resolve(mnemonic: string, ops: seq<Operand>, syms: Symbols): Resolved {
    ResolveOp(MnemonicOf(mnemonic), Args(ops, syms))
  }

  function BranchInstr(op: BranchOp, a: Reg, b: Reg, off: Imm11): (i: Instr)
    ensures IsBranch(i) && BranchOpOf(i) == op && i.rs1 == a && i.rs2 == b && i.off == off
  {
    match op
    case Equal => Beq(a, b, off)
    case NotEqual => Bne(a, b, off)
    case Below => Bltu(a, b, off)
    case NotBelow => Bgeu(a, b, off)
  }

  /** A branch target is a label within reach of an 11-bit signed offset. */
  function BranchOffset(target: string, addr: u16, syms: Symbols): Result<Imm11, AsmError> {
    if target !in syms || syms[target].Equ? then Err(BadLine) else
    var off := syms[target].addr - addr;
    if -1024 <= off <= 1023 then Ok(Pattern11(off)) else Err(BadLine)
  }

  /** The instructions of one line placed at word address `addr`. */
  function EncodeLine(mnemonic: string, ops: seq<Operand>, addr: u16, syms: Symbols): Result<seq<Instr>, AsmError> {
    var m :- Resolve(mnemonic, ops, syms);
    match m
    case Plain(i) => Ok([i])
    case LoadConst(rd, v) => Ok(TileLi(rd, v))
    case Jump(op, a, b, target) =>
      var off :- BranchOffset(target, addr, syms);
      Ok([BranchInstr(op, a, b, off)])
  }

  // ----- facts about single lines -----

  /** Two tables with the same `.equ` constants. */
  ghost predicate SameEqus(s1: Symbols, s2: Symbols) {
    forall op: Operand :: ResolveImm(op, s1) == ResolveImm(op, s2)
  }

  /** Resolution reads the `.equ` constants only. */
  lemma SameConstants(ops: seq<Operand>, s1: Symbols, s2: Symbols)
    requires SameEqus(s1, s2)
    ensures Args(ops, s1) == Args(ops, s2)
  {
    hide ResolveImm;
  }

  lemma SizedAlike(mnemonic: string, ops: seq<Operand>, s1: Symbols, s2: Symbols)
    requires SameEqus(s1, s2)
    ensures WordCount(mnemonic, ops, s1) == WordCount(mnemonic, ops, s2)
  {
    hide LiValue, SameEqus;
    SameConstants(ops, s1, s2);
  }

  lemma OnlyLiLoads(m: Mnemonic, a: seq<Actual>)
    requires ResolveOp(m, a).Ok?
    ensures ResolveOp(m, a).value.LoadConst? <==> m == MLi
    ensures m == MLi ==> |a| == 2 && LiValue(a[1]) == Ok(ResolveOp(m, a).value.v)
  {
    hide ResolvePlain, ResolveJump;
  }

  lemma LiSpelling(s: string)
    ensures MnemonicOf(s) == MLi <==> s == "li"
  {
  }

  /** A line that encodes takes exactly the words the address pass counted. */
  lemma EncodedLength(mnemonic: string, ops: seq<Operand>, addr: u16, syms: Symbols)
    requires EncodeLine(mnemonic, ops, addr, syms).Ok?
    ensures |EncodeLine(mnemonic, ops, addr, syms).value| == WordCount(mnemonic, ops, syms)
  {
    hide ResolveOp, MnemonicOf, BranchOffset, LiValue, InRange;
    OnlyLiLoads(MnemonicOf(mnemonic), Args(ops, syms));
    LiSpelling(mnemonic);
  }
}
