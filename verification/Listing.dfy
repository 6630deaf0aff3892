/** Instructions rendered as text, and assembled again. */
module Listing {
  import opened Prelude
  import opened Text
  import opened Isa
  import opened Machine
  import opened Asm
  import opened Encoder
  import opened Assembler
  import opened EmittedLines
  import opened Lexer
  import opened Printer

  // ----- rendering -----

  function NameOf(m: Mnemonic): string {
    match m
    case MCsAssert => "cs_assert"
    case MCsDeassert => "cs_deassert"
    case MRstAssert => "rst_assert"
    case MRstDeassert => "rst_deassert"
    case MCrcReset => "crc_reset"
    case MPutByte => "put_byte"
    case MPutBits => "put_bits"
    case MTar => "tar"
    case MGetByte => "get_byte"
    case MGetBits => "get_bits"
    case MGetAlert => "get_alert"
    case MHalt => "halt"
    case MWaitOn => "wait_on"
    case MSetConfig => "set_config"
    case MMark => "mark"
    case MLoadImm => "load_imm"
    case MLui => "lui"
    case MMov => "mov"
    case MAdd => "add"
    case MSub => "sub"
    case MAnd => "and"
    case MOr => "or"
    case MXor => "xor"
    case MAddi => "addi"
    case MAndi => "andi"
    case MOri => "ori"
    case MXori => "xori"
    case MSll => "sll"
    case MSrl => "srl"
    case MSra => "sra"
    case MRdsr => "rdsr"
    case MBeq => "beq"
    case MBne => "bne"
    case MBltu => "bltu"
    case _ => "bgeu"
  }

  function MnemonicFor(i: Instr): Mnemonic {
    match i
    case CsAssert => MCsAssert
    case CsDeassert => MCsDeassert
    case RstAssert => MRstAssert
    case RstDeassert => MRstDeassert
    case CrcReset => MCrcReset
    case PutByteImm(_) => MPutByte
    case PutByteReg(_) => MPutByte
    case GetByte(_) => MGetByte
    case PutBitsImm(_, _) => MPutBits
    case PutBitsReg(_, _) => MPutBits
    case GetBits(_, _) => MGetBits
    case TarImm(_) => MTar
    case TarReg(_) => MTar
    case GetAlert(_) => MGetAlert
    case Halt(_) => MHalt
    case Beq(_, _, _) => MBeq
    case Bne(_, _, _) => MBne
    case Bltu(_, _, _) => MBltu
    case Bgeu(_, _, _) => MBgeu
    case WaitOn(_, _, _) => MWaitOn
    case SetConfig(_) => MSetConfig
    case Mark(_, _) => MMark
    case LoadImm(_, _) => MLoadImm
    case Lui(_, _) => MLui
    case Mov(_, _) => MMov
    case Add(_, _, _) => MAdd
    case Sub(_, _, _) => MSub
    case And(_, _, _) => MAnd
    case Or(_, _, _) => MOr
    case Xor(_, _, _) => MXor
    case Addi(_, _, _) => MAddi
    case Andi(_, _, _) => MAndi
    case Ori(_, _, _) => MOri
    case Xori(_, _, _) => MXori
    case Shift(_, _, op, _) => if op.Sll? then MSll else if op.Srl? then MSrl else MSra
    case Rdsr(_, _) => MRdsr
  }

  function R(n: nat): Operand { Ident(RegName(n)) }

  function ConfigWords(p: Cfg6): seq<Operand> {
    [Ident(if p / 32 == 0 then "controller" else "target"),
     Ident(match p / 8 % 4 case 0 => "x1" case 1 => "x2" case 2 => "x4" case _ => "x?"),
     Ident(match p / 2 % 4 case 0 => "sck20" case 1 => "sck33" case 2 => "sck50" case _ => "sck66"),
     Ident(if p % 2 == 0 then "alert_pin" else "alert_io1")]
  }

  function OperandsFor(i: Instr): seq<Operand> {
    match i
    case PutByteImm(b) => [Num(b)]
    case PutByteReg(r) => [R(r)]
    case GetByte(r) => [R(r)]
    case PutBitsImm(n, b) => [Num(n), Num(b)]
    case PutBitsReg(r, n) => [R(r), Num(n)]
    case GetBits(r, n) => [R(r), Num(n)]
    case TarImm(t) => [Num(t)]
    case TarReg(r) => [R(r)]
    case GetAlert(r) => [R(r)]
    case Halt(s) => [Num(s)]
    case Beq(a, b, off) => [R(a), R(b), Num(Sext11(off))]
    case Bne(a, b, off) => [R(a), R(b), Num(Sext11(off))]
    case Bltu(a, b, off) => [R(a), R(b), Num(Sext11(off))]
    case Bgeu(a, b, off) => [R(a), R(b), Num(Sext11(off))]
    case WaitOn(r, c, t) => [R(r), Num(c), Num(t)]
    case SetConfig(p) => ConfigWords(p)
    case Mark(tag, r) => [Num(tag), R(r)]
    case LoadImm(r, imm) => [R(r), Num(Sext21(imm))]
    case Lui(r, imm) => [R(r), Num(imm)]
    case Mov(rd, rs) => [R(rd), R(rs)]
    case Add(d, a, b) => [R(d), R(a), R(b)]
    case Sub(d, a, b) => [R(d), R(a), R(b)]
    case And(d, a, b) => [R(d), R(a), R(b)]
    case Or(d, a, b) => [R(d), R(a), R(b)]
    case Xor(d, a, b) => [R(d), R(a), R(b)]
    case Addi(d, a, imm) => [R(d), R(a), Num(Sext11(imm))]
    case Andi(d, a, imm) => [R(d), R(a), Num(Sext11(imm))]
    case Ori(d, a, imm) => [R(d), R(a), Num(Sext11(imm))]
    case Xori(d, a, imm) => [R(d), R(a), Num(Sext11(imm))]
    case Shift(d, a, _, amt) => [R(d), R(a), Num(amt)]
    case Rdsr(r, sr) => [R(r), if sr == 0 then Ident("crc") else Num(sr)]
    case _ => []
  }

  /** The line that names an instruction. */
  function Rendered(i: Instr): Line { Op(NameOf(MnemonicFor(i)), OperandsFor(i)) }

  function RenderedAll(program: seq<Instr>): (lines: seq<Line>)
    ensures |lines| == |program|
    ensures forall k :: 0 <= k < |program| ==> lines[k] == Rendered(program[k])
  {
    if program == [] then [] else [Rendered(program[0])] + RenderedAll(program[1..])
  }

  /** One line of text an instruction, numbers in decimal. */
  function ListingText(program: seq<Instr>): string { TextAll(WriteAll(RenderedAll(program), false)) }

  // ----- a rendered instruction is printable -----

  lemma RegSpellable(n: nat)
    ensures Spellable(R(n))
  {
    hide Dec;
    DecDigits(n);
    var name := RegName(n);
    assert name[0] == 'x' && name[1..] == Dec(n);
    forall k | 1 <= k < |name| ensures IsContinue(name[k]) {
      assert name[k] == Dec(n)[k - 1];
    }
  }

  lemma ConfigIdents()
    ensures IsIdent("controller") && IsIdent("x1") && IsIdent("sck20") && IsIdent("alert_pin") && IsIdent("alert_io1")
  {
  }

  lemma ConfigSpellable(p: Cfg6)
    requires ConfigSupported(p)
    ensures AllSpellable(ConfigWords(p))
  {
    hide IsIdent;
    ConfigIdents();
  }

  lemma OperandsSpellable(i: Instr)
    requires i.SetConfig? ==> ConfigSupported(i.cfg)
    ensures AllSpellable(OperandsFor(i))
  {
    hide RegName, IsIdent, ConfigWords;
    if i.SetConfig? {
      ConfigSpellable(i.cfg);
    } else {
      forall k | 0 <= k < |OperandsFor(i)| ensures Spellable(OperandsFor(i)[k]) {
        if i.Rdsr? && i.sr == 0 && k == 1 {
          CrcIdent();
        } else if OperandsFor(i)[k].Ident? {
          var n := RegOf(i, k);
          RegSpellable(n);
        }
      }
    }
  }

  lemma CrcIdent()
    ensures IsIdent("crc")
  {
  }

  /** The register an operand names. */
  lemma RegOf(i: Instr, k: nat) returns (n: nat)
    requires !i.SetConfig? && k < |OperandsFor(i)| && OperandsFor(i)[k].Ident? && !(i.Rdsr? && k == 1)
    ensures OperandsFor(i)[k] == R(n)
  {
    hide RegName;
    n :| OperandsFor(i)[k] == R(n);
  }

  /** The operations on the bus and of control. */
  predicate BusMnemonic(m: Mnemonic) {
    m.MCsAssert? || m.MCsDeassert? || m.MRstAssert? || m.MRstDeassert? || m.MCrcReset? || m.MPutByte? || m.MPutBits? ||
    m.MTar? || m.MGetByte? || m.MGetBits? || m.MGetAlert? || m.MHalt? || m.MWaitOn? || m.MSetConfig? || m.MMark?
  }

  lemma BusNamesIdent(m: Mnemonic)
    requires BusMnemonic(m)
    ensures IsIdent(NameOf(m))
  {
  }

  lemma DataNamesIdent(m: Mnemonic)
    requires !BusMnemonic(m)
    ensures IsIdent(NameOf(m))
  {
  }

  lemma NamesIdent(m: Mnemonic)
    ensures IsIdent(NameOf(m))
  {
    hide IsIdent, NameOf;
    if BusMnemonic(m) {
      BusNamesIdent(m);
    } else {
      DataNamesIdent(m);
    }
  }

  lemma RenderedPrintable(i: Instr)
    requires i.SetConfig? ==> ConfigSupported(i.cfg)
    ensures Printable(Rendered(i))
  {
    hide NameOf, OperandsFor, IsIdent;
    NamesIdent(MnemonicFor(i));
    OperandsSpellable(i);
  }

  // ----- a rendered instruction resolves to itself -----

  /** Every register is in the 16-register window, and the configuration is one version 1 supports. */
  predicate Assemblable(i: Instr) {
    && !IsBranch(i)
    && (i.SetConfig? ==> ConfigSupported(i.cfg))
    && (forall k :: 0 <= k < |RegsOf(i)| ==> RegsOf(i)[k] < 16)
  }

  function RegsOf(i: Instr): seq<Isa.Reg> {
    match i
    case PutByteReg(r) => [r]
    case GetByte(r) => [r]
    case PutBitsReg(r, _) => [r]
    case GetBits(r, _) => [r]
    case TarReg(r) => [r]
    case GetAlert(r) => [r]
    case WaitOn(r, _, _) => [r]
    case Mark(_, r) => [r]
    case LoadImm(r, _) => [r]
    case Lui(r, _) => [r]
    case Mov(rd, rs) => [rd, rs]
    case Add(d, a, b) => [d, a, b]
    case Sub(d, a, b) => [d, a, b]
    case And(d, a, b) => [d, a, b]
    case Or(d, a, b) => [d, a, b]
    case Xor(d, a, b) => [d, a, b]
    case Addi(d, a, _) => [d, a]
    case Andi(d, a, _) => [d, a]
    case Ori(d, a, _) => [d, a]
    case Xori(d, a, _) => [d, a]
    case Shift(d, a, _, _) => [d, a]
    case Rdsr(r, _) => [r]
    case _ => []
  }

  lemma BusSpelling(m: Mnemonic)
    requires BusMnemonic(m)
    ensures MnemonicOf(NameOf(m)) == m
  {
  }

  predicate RegisterMnemonic(m: Mnemonic) {
    m.MLoadImm? || m.MLui? || m.MMov? || m.MAdd? || m.MSub? || m.MAnd? || m.MOr? || m.MXor?
  }

  lemma RegisterSpelling(m: Mnemonic)
    requires RegisterMnemonic(m)
    ensures MnemonicOf(NameOf(m)) == m
  {
  }

  predicate ImmediateMnemonic(m: Mnemonic) {
    m.MAddi? || m.MAndi? || m.MOri? || m.MXori? || m.MSll? || m.MSrl? || m.MSra?
  }

  lemma ImmediateSpelling(m: Mnemonic)
    requires ImmediateMnemonic(m)
    ensures MnemonicOf(NameOf(m)) == m
  {
  }

  lemma OtherSpelling(m: Mnemonic)
    requires m.MRdsr? || m.MBeq? || m.MBne? || m.MBltu? || m.MBgeu?
    ensures MnemonicOf(NameOf(m)) == m
  {
  }

  lemma Spelling(m: Mnemonic)
    requires !m.MUnknown? && !m.MNop? && !m.MLi? && !m.MJ? && !m.MBeqz? && !m.MBnez?
    ensures MnemonicOf(NameOf(m)) == m
  {
    hide MnemonicOf, NameOf;
    if BusMnemonic(m) {
      BusSpelling(m);
    } else if RegisterMnemonic(m) {
      RegisterSpelling(m);
    } else if ImmediateMnemonic(m) {
      ImmediateSpelling(m);
    } else {
      OtherSpelling(m);
    }
  }

  lemma SextPatterns(i: Imm11, j: Imm21)
    ensures Pattern11(Sext11(i)) == i && -1024 <= Sext11(i) <= 1023
    ensures Pattern21(Sext21(j)) == j && -0x10_0000 <= Sext21(j) <= 0xF_FFFF
  {
  }

  /** What the operands of a rendered instruction are worth. */
  lemma Worth(i: Instr, syms: Symbols, k: nat)
    requires k < |OperandsFor(i)|
    ensures var a := Args(OperandsFor(i), syms);
            && |a| == |OperandsFor(i)| && a[k].op == OperandsFor(i)[k]
            && (OperandsFor(i)[k].Num? ==> a[k].imm == Ok(OperandsFor(i)[k].n))
  {
    hide OperandsFor;
  }

  lemma RegWorth(n: nat)
    requires n < 16
    ensures ResolveReg(R(n)) == Ok(n) && IsRegister(R(n))
  {
    hide Dec;
    RegResolves(n);
  }

  /** Register operands, and an immediate. */
  lemma ThreeWorth(a: seq<Actual>, x: Isa.Reg, y: Isa.Reg, z: Isa.Reg)
    requires |a| == 3 && x < 16 && y < 16 && z < 16
    requires a[0].op == R(x) && a[1].op == R(y) && a[2].op == R(z)
    ensures ThreeRegs(a) == Ok(Triple(x, y, z))
  {
    hide RegName, ResolveReg;
    RegWorth(x);
    RegWorth(y);
    RegWorth(z);
  }

  lemma ImmediateWorth(a: seq<Actual>, x: Isa.Reg, y: Isa.Reg, imm: Imm11)
    requires |a| == 3 && x < 16 && y < 16
    requires a[0].op == R(x) && a[1].op == R(y) && a[2].imm == Ok(Sext11(imm))
    ensures RegRegImm(a) == Ok(Pair(x, y, imm))
  {
    hide RegName, ResolveReg, Pattern11, Sext11;
    RegWorth(x);
    RegWorth(y);
    SextPatterns(imm, 0);
  }

  lemma ThreeShape(i: Instr)
    requires i.Add? || i.Sub? || i.And? || i.Or? || i.Xor?
    ensures OperandsFor(i) == [R(i.rd), R(i.rs1), R(i.rs2)] && RegsOf(i) == [i.rd, i.rs1, i.rs2]
  {
    hide RegName;
  }

  lemma ThreeResolve(i: Instr, a: seq<Actual>)
    requires Assemblable(i) && (i.Add? || i.Sub? || i.And? || i.Or? || i.Xor?)
    requires |a| == 3 && forall k :: 0 <= k < 3 ==> a[k].op == OperandsFor(i)[k]
    ensures ResolvePlain(MnemonicFor(i), a) == Ok(i)
  {
    hide R, ThreeRegs, RegRegImm, ShiftBy, ResolveMove, NoOperands, ResolveBus, OperandsFor, RegsOf;
    ThreeShape(i);
    assert RegsOf(i)[0] < 16 && RegsOf(i)[1] < 16 && RegsOf(i)[2] < 16;
    ThreeWorth(a, i.rd, i.rs1, i.rs2);
  }

  lemma ImmediateShape(i: Instr)
    requires i.Addi? || i.Andi? || i.Ori? || i.Xori?
    ensures OperandsFor(i) == [R(i.rd), R(i.rs1), Num(Sext11(i.imm))] && RegsOf(i) == [i.rd, i.rs1]
  {
    hide RegName;
  }

  lemma ImmediateResolves(i: Instr, a: seq<Actual>)
    requires Assemblable(i) && (i.Addi? || i.Andi? || i.Ori? || i.Xori?)
    requires |a| == 3 && forall k :: 0 <= k < 3 ==> a[k].op == OperandsFor(i)[k]
    requires a[2].imm == Ok(Sext11(i.imm))
    ensures ResolvePlain(MnemonicFor(i), a) == Ok(i)
  {
    hide R, ThreeRegs, RegRegImm, ShiftBy, ResolveMove, NoOperands, ResolveBus, OperandsFor, RegsOf, Sext11;
    ImmediateShape(i);
    assert RegsOf(i)[0] < 16 && RegsOf(i)[1] < 16;
    ImmediateWorth(a, i.rd, i.rs1, i.imm);
  }

  lemma ShiftShape(i: Instr)
    requires i.Shift?
    ensures OperandsFor(i) == [R(i.rd), R(i.rs1), Num(i.amt)] && RegsOf(i) == [i.rd, i.rs1]
  {
    hide RegName;
  }

  lemma ShiftResolves(i: Instr, a: seq<Actual>)
    requires Assemblable(i) && i.Shift?
    requires |a| == 3 && forall k :: 0 <= k < 3 ==> a[k].op == OperandsFor(i)[k]
    requires a[2].imm == Ok(i.amt)
    ensures ResolvePlain(MnemonicFor(i), a) == Ok(i)
  {
    hide R, ThreeRegs, RegRegImm, ResolveMove, NoOperands, ResolveBus, OperandsFor, RegsOf, ResolveReg;
    ShiftShape(i);
    assert RegsOf(i)[0] < 16 && RegsOf(i)[1] < 16;
    RegWorth(i.rd);
    RegWorth(i.rs1);
  }

  lemma MoveShape(i: Instr)
    requires i.Mov?
    ensures OperandsFor(i) == [R(i.rd), R(i.rs)] && RegsOf(i) == [i.rd, i.rs]
  {
    hide RegName;
  }

  lemma MoveResolves(i: Instr, a: seq<Actual>)
    requires Assemblable(i) && i.Mov?
    requires |a| == 2 && forall k :: 0 <= k < 2 ==> a[k].op == OperandsFor(i)[k]
    ensures ResolvePlain(MnemonicFor(i), a) == Ok(i)
  {
    hide R, ThreeRegs, RegRegImm, ShiftBy, NoOperands, ResolveBus, OperandsFor, RegsOf, ResolveReg;
    MoveShape(i);
    assert RegsOf(i)[0] < 16 && RegsOf(i)[1] < 16;
    RegWorth(i.rd);
    RegWorth(i.rs);
  }

  lemma DataResolves(i: Instr, a: seq<Actual>)
    requires Assemblable(i) && IsData(i) && !i.LoadImm? && !i.Lui?
    requires |a| == |OperandsFor(i)|
    requires forall k :: 0 <= k < |a| ==> a[k].op == OperandsFor(i)[k] && (a[k].op.Num? ==> a[k].imm == Ok(a[k].op.n))
    ensures ResolvePlain(MnemonicFor(i), a) == Ok(i)
  {
    hide R, ResolvePlain, Assemblable, Sext11, OperandsFor, RegsOf;
    if i.Mov? {
      MoveShape(i);
      MoveResolves(i, a);
    } else if i.Shift? {
      ShiftShape(i);
      ShiftResolves(i, a);
    } else if i.Addi? || i.Andi? || i.Ori? || i.Xori? {
      ImmediateShape(i);
      ImmediateResolves(i, a);
    } else {
      ThreeShape(i);
      ThreeResolve(i, a);
    }
  }

  lemma MixedResolves(i: Instr, a: seq<Actual>)
    requires Assemblable(i) && (i.LoadImm? || i.Lui? || i.GetBits? || i.Halt? || i.WaitOn? || i.Mark? || i.Rdsr?)
    requires |a| == |OperandsFor(i)|
    requires forall k :: 0 <= k < |a| ==> a[k].op == OperandsFor(i)[k] && (a[k].op.Num? ==> a[k].imm == Ok(a[k].op.n))
    ensures ResolveMixed(MnemonicFor(i), a) == Ok(i)
  {
    hide RegName, ResolveReg, LowerCase;
    CrcSpelling();
    if !i.Halt? {
      RegWorth(RegsOf(i)[0]);
    }
    if i.LoadImm? {
      SextPatterns(0, i.imm21);
    }
  }

  lemma ConfigResolves(p: Cfg6, a: seq<Actual>)
    requires ConfigSupported(p) && |a| == 4
    requires forall k :: 0 <= k < 4 ==> a[k].op == ConfigWords(p)[k]
    ensures ResolveConfig(a) == Ok(SetConfig(p))
  {
    hide LowerCase;
    ConfigSpelling();
  }

  lemma ConfigSpelling()
    ensures LowerCase("controller") == "controller" && LowerCase("x1") == "x1" && LowerCase("sck20") == "sck20"
    ensures LowerCase("alert_pin") == "alert_pin" && LowerCase("alert_io1") == "alert_io1"
  {
    hide LowerCase;
    AlreadyLower("controller");
    AlreadyLower("x1");
    AlreadyLower("sck20");
    AlreadyLower("alert_pin");
    AlreadyLower("alert_io1");
  }

  lemma BusResolves(i: Instr, a: seq<Actual>)
    requires Assemblable(i) && !IsData(i)
    requires !(i.GetBits? || i.Halt? || i.WaitOn? || i.Mark? || i.Rdsr? || i.SetConfig?)
    requires |a| == |OperandsFor(i)|
    requires forall k :: 0 <= k < |a| ==> a[k].op == OperandsFor(i)[k] && (a[k].op.Num? ==> a[k].imm == Ok(a[k].op.n))
    ensures ResolveBus(MnemonicFor(i), a) == Ok(i)
  {
    hide RegName, ResolveReg, IsRegister, ResolveMixed, ResolveConfig;
    if RegsOf(i) != [] {
      RegWorth(RegsOf(i)[0]);
    }
    NumbersAreNotRegisters();
  }

  lemma NumbersAreNotRegisters()
    ensures forall n: i64 :: !IsRegister(Num(n))
  {
  }

  /** The assembler reads back the instruction, whatever symbols there are. */
  lemma RenderedResolves(i: Instr, syms: Symbols)
    requires Assemblable(i)
    ensures Resolve(Rendered(i).mnemonic, Rendered(i).operands, syms) == Ok(Plain(i))
  {
    hide MnemonicOf, NameOf, OperandsFor, ResolveBus, ResolveMixed, ResolveConfig, Args, ConfigWords, RegsOf;
    var m := MnemonicFor(i);
    Spelling(m);
    var a := Args(OperandsFor(i), syms);
    forall k | 0 <= k < |OperandsFor(i)|
      ensures |a| == |OperandsFor(i)| && a[k].op == OperandsFor(i)[k] && (a[k].op.Num? ==> a[k].imm == Ok(a[k].op.n))
    {
      Worth(i, syms, k);
    }
    assert |a| == |OperandsFor(i)|;
    ResolvesWith(i, a);
  }

  lemma ResolvesWith(i: Instr, a: seq<Actual>)
    requires Assemblable(i) && |a| == |OperandsFor(i)|
    requires forall k :: 0 <= k < |a| ==> a[k].op == OperandsFor(i)[k] && (a[k].op.Num? ==> a[k].imm == Ok(a[k].op.n))
    ensures ResolvePlain(MnemonicFor(i), a) == Ok(i)
  {
    hide OperandsFor, RegsOf, ThreeRegs, RegRegImm, ShiftBy, ResolveMove, NoOperands, ResolvePut, ResolvePutBits,
         ResolveTar, OneReg, ResolveMixed, ResolveConfig;
    if i.LoadImm? || i.Lui? || i.GetBits? || i.Halt? || i.WaitOn? || i.Mark? || i.Rdsr? {
      MixedResolves(i, a);
    } else if i.SetConfig? {
      SetConfigOperands(i.cfg);
      ConfigResolves(i.cfg, a);
    } else if IsData(i) {
      DataResolves(i, a);
    } else {
      BusResolves(i, a);
    }
  }

  lemma SetConfigOperands(p: Cfg6)
    ensures OperandsFor(SetConfig(p)) == ConfigWords(p) && |ConfigWords(p)| == 4
  {
  }

  // ----- whole listings -----

  ghost predicate AllAssemblable(program: seq<Instr>) {
    forall k :: 0 <= k < |program| ==> Assemblable(program[k])
  }

  lemma NotLi(i: Instr)
    ensures NameOf(MnemonicFor(i)) != "li"
  {
    hide MnemonicOf, NameOf;
    Spelling(MnemonicFor(i));
    LiName();
  }

  /** A rendered instruction takes one word: its own. */
  lemma RenderedEncodes(i: Instr, addr: u16, syms: Symbols)
    requires Assemblable(i)
    ensures EncodeLine(Rendered(i).mnemonic, Rendered(i).operands, addr, syms) == Ok([i])
    ensures WordCount(Rendered(i).mnemonic, Rendered(i).operands, syms) == 1
  {
    hide Resolve, Assemblable, NameOf, MnemonicFor, OperandsFor, TileLi, LiValue;
    RenderedResolves(i, syms);
    NotLi(i);
  }

  lemma {:induction false} EquPlain(program: seq<Instr>, n: nat)
    requires n <= |program|
    ensures EquPass(RenderedAll(program), n) == EquState(map[], [])
  {
    hide NameOf, MnemonicFor, OperandsFor, RenderedAll;
    if n > 0 {
      EquPlain(program, n - 1);
    }
  }

  lemma {:induction false} AddrPlain(program: seq<Instr>, n: nat)
    requires AllAssemblable(program) && n <= |program|
    ensures AddrPass(RenderedAll(program), map[], n) == AddrState(n, map[], [])
  {
    hide NameOf, MnemonicFor, OperandsFor, RenderedAll, WordCount, Assemblable;
    if n > 0 {
      AddrPlain(program, n - 1);
      RenderedEncodes(program[n - 1], 0, map[]);
    }
  }

  /** One more rendered instruction for pass 2. */
  lemma CodeOne(st: CodeState, i: Instr)
    requires Assemblable(i)
    ensures CodeStep(st, Rendered(i), map[]) == CodeState((st.addr + 1) % 0x1_0000, st.instrs + [i], st.diags)
  {
    hide NameOf, MnemonicFor, OperandsFor, WordCount, EncodeLine, Assemblable;
    RenderedEncodes(i, st.addr, map[]);
  }

  lemma {:induction false} CodePlain(program: seq<Instr>, n: nat)
    requires AllAssemblable(program) && n <= |program| <= MAX_WORDS
    ensures CodePass(RenderedAll(program), map[], n) == CodeState(n, program[..n], [])
  {
    hide CodeStep, Rendered, RenderedAll, Assemblable;
    if n > 0 {
      CodePlain(program, n - 1);
      CodeOne(CodeState(n - 1, program[..n - 1], []), program[n - 1]);
      assert program[..n] == program[..n - 1] + [program[n - 1]];
    } else {
      assert program[..0] == [];
    }
  }

  lemma ListingAssembly(program: seq<Instr>)
    requires AllAssemblable(program) && |program| <= MAX_WORDS
    ensures Assembly(RenderedAll(program)) == Ok(program)
  {
    hide EquPass, AddrPass, CodePass, Assemblable;
    EquPlain(program, |program|);
    AddrPlain(program, |program|);
    CodePlain(program, |program|);
    assert program[..|program|] == program;
  }

  /**
   * The listing of any program of at most 1024 instructions that are not branches, over x0..x15 and
   * with a configuration of version 1, lexes, parses and assembles back to exactly that program.
   */
  lemma ListingRoundTrip(program: seq<Instr>)
    requires AllAssemblable(program) && |program| <= MAX_WORDS
    ensures ParseText(ListingText(program)) == Some(RenderedAll(program))
    ensures Assembly(ParseText(ListingText(program)).value) == Ok(program)
  {
    hide Rendered, Printable, TextAll, ParseText, Assembly, RegsOf;
    forall k | 0 <= k < |program| ensures Printable(Rendered(program[k])) {
      RenderedPrintable(program[k]);
    }
    PrintParses(RenderedAll(program), false);
    ListingAssembly(program);
  }
}
