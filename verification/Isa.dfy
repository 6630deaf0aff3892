/** The instruction set: operand fields, `Instr`, and the 32-bit word codec. */
module Isa {
  import opened Prelude

  // Bounded operand fields. A field that the hardware masks to k bits is a
  // number below 2^k; shifts and masks are written as products and remainders.
  type Reg = n: nat | n < 32
  type Imm11 = n: nat | n < 0x800
  type Imm21 = n: nat | n < 0x20_0000
  type Tar4 = n: nat | n < 16
  type Cfg6 = n: nat | n < 64
  type Sr5 = n: nat | n < 32
  type Amt5 = n: nat | n < 32
  type WaitCond = n: nat | n < 4
  type WaitTimeout = n: nat | n < 512
  type BitCount = n: nat | 1 <= n <= 8 witness 1

  datatype ShiftOp = Sll | Srl | Sra

  datatype Instr =
    // BUS group (00)
    | CsAssert
    | CsDeassert
    | PutByteImm(b: byte)
    | PutByteReg(rs: Reg)
    | GetByte(rd: Reg)
    | PutBitsImm(n: BitCount, b: byte)
    | PutBitsReg(rs: Reg, n: BitCount)
    | GetBits(rd: Reg, n: BitCount)
    | TarImm(clocks: Tar4)
    | TarReg(rs: Reg)
    | RstAssert
    | RstDeassert
    | GetAlert(rd: Reg)
    // CTRL group (01)
    | Halt(status: byte)
    | Beq(rs1: Reg, rs2: Reg, off: Imm11)
    | Bne(rs1: Reg, rs2: Reg, off: Imm11)
    | Bltu(rs1: Reg, rs2: Reg, off: Imm11)
    | Bgeu(rs1: Reg, rs2: Reg, off: Imm11)
    | WaitOn(rd: Reg, cond: WaitCond, timeout: WaitTimeout)
    | SetConfig(cfg: Cfg6)
    | Mark(tag: Imm11, rs: Reg)
    | CrcReset
    // DATA group (10)
    | LoadImm(rd: Reg, imm21: Imm21)
    | Lui(rd: Reg, imm21: Imm21)
    | Mov(rd: Reg, rs: Reg)
    | Add(rd: Reg, rs1: Reg, rs2: Reg)
    | Addi(rd: Reg, rs1: Reg, imm: Imm11)
    | Sub(rd: Reg, rs1: Reg, rs2: Reg)
    | And(rd: Reg, rs1: Reg, rs2: Reg)
    | Andi(rd: Reg, rs1: Reg, imm: Imm11)
    | Or(rd: Reg, rs1: Reg, rs2: Reg)
    | Ori(rd: Reg, rs1: Reg, imm: Imm11)
    | Xor(rd: Reg, rs1: Reg, rs2: Reg)
    | Xori(rd: Reg, rs1: Reg, imm: Imm11)
    | Shift(rd: Reg, rs1: Reg, op: ShiftOp, amt: Amt5)
    | Rdsr(rd: Reg, sr: Sr5)

  datatype DecodeError = ReservedFieldNonZero | OpcodeUnimplemented | IllegalOpcode

  /** The six raw fields of a word, from the most significant end. */
  datatype Fields = Fields(group: nat, sub: nat, rd: Reg, rs1: Reg, rs2: Reg, imm: Imm11) {
    predicate Valid() { group < 4 && sub < 16 }
  }

  /** Fields are peeled from the least significant end, one shift at a time. */
  function SplitWord(w: u32): (f: Fields)
    ensures f.Valid()
  {
    var q1 := w / 0x800;
    var q2 := q1 / 32;
    var q3 := q2 / 32;
    var q4 := q3 / 32;
    Fields(q4 / 16, q4 % 16, q3 % 32, q2 % 32, q1 % 32, w % 0x800)
  }

  function JoinWord(f: Fields): (w: u32)
    requires f.Valid()
  {
    ((((f.group * 16 + f.sub) * 32 + f.rd) * 32 + f.rs1) * 32 + f.rs2) * 0x800 + f.imm
  }

  function ShiftBits(op: ShiftOp): nat {
    match op
    case Sll => 0
    case Srl => 1
    case Sra => 2
  }

  // Sub-field packers.
  function PackBitsImm(n: BitCount, b: byte): Imm11 { (n - 1) * 0x100 + b }
  function WaitPack(c: WaitCond, t: WaitTimeout): Imm11 { c * 0x200 + t }
  function ShiftPack(op: ShiftOp, amt: Amt5): Imm11 { ShiftBits(op) * 0x200 + amt }
  function JoinImm21(rs1: Reg, rs2: Reg, imm: Imm11): Imm21 { (rs1 * 32 + rs2) * 0x800 + imm }

  function Bus(sub: nat, rd: Reg, rs1: Reg, imm: Imm11): Fields { Fields(0, sub, rd, rs1, 0, imm) }
  function Ctrl(sub: nat, rd: Reg, rs1: Reg, rs2: Reg, imm: Imm11): Fields { Fields(1, sub, rd, rs1, rs2, imm) }
  function Data(sub: nat, rd: Reg, rs1: Reg, rs2: Reg, imm: Imm11): Fields { Fields(2, sub, rd, rs1, rs2, imm) }
  function Wide(sub: nat, rd: Reg, i: Imm21): Fields {
    Fields(2, sub, rd, i / 0x800 / 32, i / 0x800 % 32, i % 0x800)
  }

  /** The fields `encode` hands to the word joiner. */
  function FieldsOf(i: Instr): (f: Fields)
    ensures f.Valid()
  {
    match i
    case CsAssert => Bus(0x0, 0, 0, 0)
    case CsDeassert => Bus(0x1, 0, 0, 0)
    case PutByteImm(b) => Bus(0x2, 0, 0, b)
    case PutByteReg(rs) => Bus(0x3, 0, rs, 0)
    case GetByte(rd) => Bus(0x4, rd, 0, 0)
    case PutBitsImm(n, b) => Bus(0x5, 0, 0, PackBitsImm(n, b))
    case PutBitsReg(rs, n) => Bus(0x6, 0, rs, PackBitsImm(n, 0))
    case GetBits(rd, n) => Bus(0x7, rd, 0, PackBitsImm(n, 0))
    case TarImm(n) => Bus(0x8, 0, 0, n)
    case TarReg(rs) => Bus(0x9, 0, rs, 0)
    case RstAssert => Bus(0xA, 0, 0, 0)
    case RstDeassert => Bus(0xB, 0, 0, 0)
    case GetAlert(rd) => Bus(0xC, rd, 0, 0)
    case Halt(s) => Ctrl(0x0, 0, 0, 0, s)
    case Beq(a, b, off) => Ctrl(0x1, 0, a, b, off)
    case Bne(a, b, off) => Ctrl(0x2, 0, a, b, off)
    case Bltu(a, b, off) => Ctrl(0x3, 0, a, b, off)
    case Bgeu(a, b, off) => Ctrl(0x4, 0, a, b, off)
    case WaitOn(rd, c, t) => Ctrl(0x5, rd, 0, 0, WaitPack(c, t))
    case SetConfig(p) => Ctrl(0x6, 0, 0, 0, p)
    case Mark(tag, rs) => Ctrl(0x7, 0, rs, 0, tag)
    case CrcReset => Ctrl(0x8, 0, 0, 0, 0)
    case LoadImm(rd, imm) => Wide(0x0, rd, imm)
    case Lui(rd, imm) => Wide(0x1, rd, imm)
    case Mov(rd, rs) => Data(0x2, rd, rs, 0, 0)
    case Add(rd, a, b) => Data(0x3, rd, a, b, 0)
    case Addi(rd, a, imm) => Data(0x4, rd, a, 0, imm)
    case Sub(rd, a, b) => Data(0x5, rd, a, b, 0)
    case And(rd, a, b) => Data(0x6, rd, a, b, 0)
    case Andi(rd, a, imm) => Data(0x7, rd, a, 0, imm)
    case Or(rd, a, b) => Data(0x8, rd, a, b, 0)
    case Ori(rd, a, imm) => Data(0x9, rd, a, 0, imm)
    case Xor(rd, a, b) => Data(0xA, rd, a, b, 0)
    case Xori(rd, a, imm) => Data(0xB, rd, a, 0, imm)
    case Shift(rd, a, op, amt) => Data(0xC, rd, a, 0, ShiftPack(op, amt))
    case Rdsr(rd, sr) => Data(0xD, rd, 0, 0, sr)
  }

  function Encode(i: Instr): u32 { JoinWord(FieldsOf(i)) }

  /** Accepts `i` only when every reserved field is zero. */
  function Only(reservedZero: bool, i: Instr): Result<Instr, DecodeError> {
    if reservedZero then Ok(i) else Err(ReservedFieldNonZero)
  }

  function DecodeBus(f: Fields): Result<Instr, DecodeError> {
    var none := f.rd == 0 && f.rs1 == 0 && f.rs2 == 0;
    var n: BitCount := f.imm / 0x100 + 1;
    var b: byte := f.imm % 0x100;
    match f.sub
    case 0x0 => Only(none && f.imm == 0, CsAssert)
    case 0x1 => Only(none && f.imm == 0, CsDeassert)
    case 0x2 => Only(none && f.imm / 0x100 == 0, PutByteImm(b))
    case 0x3 => Only(f.rd == 0 && f.rs2 == 0 && f.imm == 0, PutByteReg(f.rs1))
    case 0x4 => Only(f.rs1 == 0 && f.rs2 == 0 && f.imm == 0, GetByte(f.rd))
    case 0x5 => Only(none, PutBitsImm(n, b))
    case 0x6 => Only(f.rd == 0 && f.rs2 == 0 && b == 0, PutBitsReg(f.rs1, n))
    case 0x7 => Only(f.rs1 == 0 && f.rs2 == 0 && b == 0, GetBits(f.rd, n))
    case 0x8 => Only(none && f.imm / 0x10 == 0, TarImm(f.imm % 16))
    case 0x9 => Only(f.rd == 0 && f.rs2 == 0 && f.imm == 0, TarReg(f.rs1))
    case 0xA => Only(none && f.imm == 0, RstAssert)
    case 0xB => Only(none && f.imm == 0, RstDeassert)
    case 0xC => Only(f.rs1 == 0 && f.rs2 == 0 && f.imm == 0, GetAlert(f.rd))
    case _ => Err(IllegalOpcode)
  }

  function DecodeCtrl(f: Fields): Result<Instr, DecodeError> {
    var none := f.rd == 0 && f.rs1 == 0 && f.rs2 == 0;
    match f.sub
    case 0x0 => Only(none && f.imm / 0x100 == 0, Halt(f.imm % 0x100))
    case 0x1 => Only(f.rd == 0, Beq(f.rs1, f.rs2, f.imm))
    case 0x2 => Only(f.rd == 0, Bne(f.rs1, f.rs2, f.imm))
    case 0x3 => Only(f.rd == 0, Bltu(f.rs1, f.rs2, f.imm))
    case 0x4 => Only(f.rd == 0, Bgeu(f.rs1, f.rs2, f.imm))
    case 0x5 => Only(f.rs1 == 0 && f.rs2 == 0, WaitOn(f.rd, f.imm / 0x200, f.imm % 0x200))
    case 0x6 => Only(none && f.imm / 0x40 == 0, SetConfig(f.imm % 64))
    case 0x7 => Only(f.rd == 0 && f.rs2 == 0, Mark(f.imm, f.rs1))
    case 0x8 => Only(none && f.imm == 0, CrcReset)
    case _ => Err(IllegalOpcode)
  }

  function DecodeShift(f: Fields): Result<Instr, DecodeError> {
    var op := f.imm / 0x200;
    if op < 3 && f.rs2 == 0 && f.imm / 0x20 % 16 == 0 then
      Ok(Shift(f.rd, f.rs1, if op == 0 then Sll else if op == 1 then Srl else Sra, f.imm % 32))
    else
      Err(ReservedFieldNonZero)
  }

  function DecodeData(f: Fields): Result<Instr, DecodeError> {
    match f.sub
    case 0x0 => Ok(LoadImm(f.rd, JoinImm21(f.rs1, f.rs2, f.imm)))
    case 0x1 => Ok(Lui(f.rd, JoinImm21(f.rs1, f.rs2, f.imm)))
    case 0x2 => Only(f.rs2 == 0 && f.imm == 0, Mov(f.rd, f.rs1))
    case 0x3 => Only(f.imm == 0, Add(f.rd, f.rs1, f.rs2))
    case 0x4 => Only(f.rs2 == 0, Addi(f.rd, f.rs1, f.imm))
    case 0x5 => Only(f.imm == 0, Sub(f.rd, f.rs1, f.rs2))
    case 0x6 => Only(f.imm == 0, And(f.rd, f.rs1, f.rs2))
    case 0x7 => Only(f.rs2 == 0, Andi(f.rd, f.rs1, f.imm))
    case 0x8 => Only(f.imm == 0, Or(f.rd, f.rs1, f.rs2))
    case 0x9 => Only(f.rs2 == 0, Ori(f.rd, f.rs1, f.imm))
    case 0xA => Only(f.imm == 0, Xor(f.rd, f.rs1, f.rs2))
    case 0xB => Only(f.rs2 == 0, Xori(f.rd, f.rs1, f.imm))
    case 0xC => DecodeShift(f)
    case 0xD => Only(f.rs1 == 0 && f.rs2 == 0 && f.imm / 0x20 == 0, Rdsr(f.rd, f.imm % 32))
    case _ => Err(IllegalOpcode)
  }

  function DecodeFields(f: Fields): Result<Instr, DecodeError> {
    match f.group
    case 0 => DecodeBus(f)
    case 1 => DecodeCtrl(f)
    case 2 => DecodeData(f)
    case _ => Err(IllegalOpcode)
  }

  function Decode(w: u32): Result<Instr, DecodeError> { DecodeFields(SplitWord(w)) }

  // ----- the codec is a bijection between instructions and decodable words -----

  lemma SplitJoin(f: Fields)
    requires f.Valid()
    ensures SplitWord(JoinWord(f)) == f
  {
    var q4 := f.group * 16 + f.sub;
    var q3 := q4 * 32 + f.rd;
    var q2 := q3 * 32 + f.rs1;
    var q1 := q2 * 32 + f.rs2;
    Peel(0x800, q1, f.imm);
    Peel(32, q2, f.rs2);
    Peel(32, q3, f.rs1);
    Peel(32, q4, f.rd);
    Peel(16, f.group, f.sub);
  }

  lemma JoinSplit(w: u32)
    ensures JoinWord(SplitWord(w)) == w
  {
    var q1 := w / 0x800;
    var q2 := q1 / 32;
    var q3 := q2 / 32;
    var q4 := q3 / 32;
    assert q3 == q4 * 32 + q3 % 32;
    assert q2 == q3 * 32 + q2 % 32;
    assert q1 == q2 * 32 + q1 % 32;
  }

  lemma BitsRoundTrip(i: Instr)
    requires i.PutBitsImm? || i.PutBitsReg? || i.GetBits?
    ensures DecodeBus(FieldsOf(i)) == Ok(i)
  {
    if i.PutBitsImm? {
      Peel(0x100, i.n - 1, i.b);
    } else {
      Peel(0x100, i.n - 1, 0);
    }
  }

  lemma BusRoundTrip(i: Instr)
    requires FieldsOf(i).group == 0
    ensures DecodeBus(FieldsOf(i)) == Ok(i)
  {
    if i.PutBitsImm? || i.PutBitsReg? || i.GetBits? {
      BitsRoundTrip(i);
    }
  }

  lemma CtrlRoundTrip(i: Instr)
    requires FieldsOf(i).group == 1
    ensures DecodeCtrl(FieldsOf(i)) == Ok(i)
  {
    if i.WaitOn? {
      Peel(0x200, i.cond, i.timeout);
    }
  }

  lemma ShiftRoundTrip(i: Instr)
    requires i.Shift?
    ensures DecodeShift(FieldsOf(i)) == Ok(i)
  {
    var op := ShiftBits(i.op);
    Peel(0x200, op, i.amt);
    Peel(0x20, op * 16, i.amt);
    Peel(16, op, 0);
  }

  lemma DataRoundTrip(i: Instr)
    requires FieldsOf(i).group == 2
    ensures DecodeData(FieldsOf(i)) == Ok(i)
  {
    hide DecodeShift, JoinImm21;
    match i
    case LoadImm(_, imm) => Imm21RoundTrip(imm);
    case Lui(_, imm) => Imm21RoundTrip(imm);
    case Shift(_, _, _, _) => ShiftRoundTrip(i);
    case _ =>
  }

  lemma FieldsRoundTrip(i: Instr)
    ensures DecodeFields(FieldsOf(i)) == Ok(i)
  {
    hide DecodeBus, DecodeCtrl, DecodeData, FieldsOf;
    match FieldsOf(i).group
    case 0 => BusRoundTrip(i);
    case 1 => CtrlRoundTrip(i);
    case 2 => DataRoundTrip(i);
    case _ => GroupBelow3(i);
  }

  lemma GroupBelow3(i: Instr)
    ensures FieldsOf(i).group < 3
  {
  }

  lemma Imm21RoundTrip(i: Imm21)
    ensures JoinImm21(i / 0x800 / 32, i / 0x800 % 32, i % 0x800) == i
  {
    var q := i / 0x800;
    assert q == q / 32 * 32 + q % 32;
    assert i == q * 0x800 + i % 0x800;
  }

  lemma Imm21Split(rs1: Reg, rs2: Reg, imm: Imm11)
    ensures var i := JoinImm21(rs1, rs2, imm);
            i / 0x800 / 32 == rs1 && i / 0x800 % 32 == rs2 && i % 0x800 == imm
  {
    Peel(0x800, rs1 * 32 + rs2, imm);
    Peel(32, rs1, rs2);
  }

  lemma DecodedBus(f: Fields)
    requires f.Valid() && f.group == 0 && DecodeBus(f).Ok?
    ensures FieldsOf(DecodeBus(f).value) == f
  {
    assert f.imm == f.imm / 0x100 * 0x100 + f.imm % 0x100;
  }

  lemma DecodedCtrl(f: Fields)
    requires f.Valid() && f.group == 1 && DecodeCtrl(f).Ok?
    ensures FieldsOf(DecodeCtrl(f).value) == f
  {
    assert f.imm == f.imm / 0x200 * 0x200 + f.imm % 0x200;
  }

  lemma DecodedShift(f: Fields)
    requires f.Valid() && f.group == 2 && f.sub == 0xC && DecodeShift(f).Ok?
    ensures FieldsOf(DecodeShift(f).value) == f
  {
    var q := f.imm / 0x20;
    assert f.imm / 0x200 == q / 16;
    assert q == q / 16 * 16 + q % 16;
    assert f.imm == q * 32 + f.imm % 32;
  }

  lemma DecodedWide(f: Fields)
    requires f.Valid() && f.group == 2 && f.sub <= 1
    ensures DecodeData(f).Ok? && FieldsOf(DecodeData(f).value) == f
  {
    Imm21Split(f.rs1, f.rs2, f.imm);
  }

  lemma DecodedData(f: Fields)
    requires f.Valid() && f.group == 2 && DecodeData(f).Ok?
    ensures FieldsOf(DecodeData(f).value) == f
  {
    hide DecodeShift, JoinImm21;
    if f.sub == 0xC {
      DecodedShift(f);
    } else if f.sub <= 1 {
      DecodedWide(f);
    }
  }

  lemma DecodedFields(f: Fields)
    requires f.Valid() && DecodeFields(f).Ok?
    ensures FieldsOf(DecodeFields(f).value) == f
  {
    hide DecodeBus, DecodeCtrl, DecodeData, FieldsOf;
    match f.group
    case 0 => DecodedBus(f);
    case 1 => DecodedCtrl(f);
    case _ => DecodedData(f);
  }

  /** `Decode` undoes `Encode`, and a word decodes to `i` only if it is the encoding of `i`. */
  lemma EncodeDecode(i: Instr, w: u32)
    ensures Decode(Encode(i)) == Ok(i)
    ensures Decode(w) == Ok(i) <==> w == Encode(i)
  {
    hide DecodeFields, FieldsOf, SplitWord, JoinWord;
    SplitJoin(FieldsOf(i));
    FieldsRoundTrip(i);
    if Decode(w) == Ok(i) {
      DecodedFields(SplitWord(w));
      JoinSplit(w);
    }
  }

  /** The words of a program. */
  function EncodeAll(program: seq<Instr>): (w: seq<u32>)
    ensures |w| == |program|
    ensures forall k :: 0 <= k < |program| ==> w[k] == Encode(program[k])
  {
    if program == [] then [] else [Encode(program[0])] + EncodeAll(program[1..])
  }

  /** Where each field sits in a word. */
  lemma FieldPositions(f: Fields)
    requires f.Valid()
    ensures JoinWord(f) == f.group * 0x4000_0000 + f.sub * 0x400_0000 + f.rd * 0x20_0000 + f.rs1 * 0x1_0000
                         + f.rs2 * 0x800 + f.imm
  {
  }

  /** The words of the BUS group, opcode and operands in place. */
  lemma BusWords(i: Instr)
    ensures match i
            case CsAssert => Encode(i) == 0x0000_0000
            case CsDeassert => Encode(i) == 0x0400_0000
            case PutByteImm(b) => Encode(i) == 0x0800_0000 + b
            case PutByteReg(rs) => Encode(i) == 0x0C00_0000 + rs * 0x1_0000
            case GetByte(rd) => Encode(i) == 0x1000_0000 + rd * 0x20_0000
            case PutBitsImm(n, b) => Encode(i) == 0x1400_0000 + (n - 1) * 0x100 + b
            case PutBitsReg(rs, n) => Encode(i) == 0x1800_0000 + rs * 0x1_0000 + (n - 1) * 0x100
            case GetBits(rd, n) => Encode(i) == 0x1C00_0000 + rd * 0x20_0000 + (n - 1) * 0x100
            case TarImm(n) => Encode(i) == 0x2000_0000 + n
            case TarReg(rs) => Encode(i) == 0x2400_0000 + rs * 0x1_0000
            case RstAssert => Encode(i) == 0x2800_0000
            case RstDeassert => Encode(i) == 0x2C00_0000
            case GetAlert(rd) => Encode(i) == 0x3000_0000 + rd * 0x20_0000
            case _ => true
  {
    hide JoinWord;
    FieldPositions(FieldsOf(i));
  }

  /** The words of the CTRL group. */
  lemma CtrlWords(i: Instr)
    ensures match i
            case Halt(s) => Encode(i) == 0x4000_0000 + s
            case Beq(a, b, off) => Encode(i) == 0x4400_0000 + a * 0x1_0000 + b * 0x800 + off
            case Bne(a, b, off) => Encode(i) == 0x4800_0000 + a * 0x1_0000 + b * 0x800 + off
            case Bltu(a, b, off) => Encode(i) == 0x4C00_0000 + a * 0x1_0000 + b * 0x800 + off
            case Bgeu(a, b, off) => Encode(i) == 0x5000_0000 + a * 0x1_0000 + b * 0x800 + off
            case WaitOn(rd, c, t) => Encode(i) == 0x5400_0000 + rd * 0x20_0000 + c * 0x200 + t
            case SetConfig(p) => Encode(i) == 0x5800_0000 + p
            case Mark(tag, rs) => Encode(i) == 0x5C00_0000 + rs * 0x1_0000 + tag
            case CrcReset => Encode(i) == 0x6000_0000
            case _ => true
  {
    hide JoinWord;
    FieldPositions(FieldsOf(i));
  }

  /** The words of the DATA group; a shift has its operation above its amount. */
  lemma DataWords(i: Instr)
    ensures match i
            case LoadImm(rd, imm) => Encode(i) == 0x8000_0000 + rd * 0x20_0000 + imm
            case Lui(rd, imm) => Encode(i) == 0x8400_0000 + rd * 0x20_0000 + imm
            case Mov(rd, rs) => Encode(i) == 0x8800_0000 + rd * 0x20_0000 + rs * 0x1_0000
            case Add(rd, a, b) => Encode(i) == 0x8C00_0000 + rd * 0x20_0000 + a * 0x1_0000 + b * 0x800
            case Addi(rd, a, imm) => Encode(i) == 0x9000_0000 + rd * 0x20_0000 + a * 0x1_0000 + imm
            case Sub(rd, a, b) => Encode(i) == 0x9400_0000 + rd * 0x20_0000 + a * 0x1_0000 + b * 0x800
            case And(rd, a, b) => Encode(i) == 0x9800_0000 + rd * 0x20_0000 + a * 0x1_0000 + b * 0x800
            case Andi(rd, a, imm) => Encode(i) == 0x9C00_0000 + rd * 0x20_0000 + a * 0x1_0000 + imm
            case Or(rd, a, b) => Encode(i) == 0xA000_0000 + rd * 0x20_0000 + a * 0x1_0000 + b * 0x800
            case Ori(rd, a, imm) => Encode(i) == 0xA400_0000 + rd * 0x20_0000 + a * 0x1_0000 + imm
            case Xor(rd, a, b) => Encode(i) == 0xA800_0000 + rd * 0x20_0000 + a * 0x1_0000 + b * 0x800
            case Xori(rd, a, imm) => Encode(i) == 0xAC00_0000 + rd * 0x20_0000 + a * 0x1_0000 + imm
            case Shift(rd, a, Sll, n) => Encode(i) == 0xB000_0000 + rd * 0x20_0000 + a * 0x1_0000 + n
            case Shift(rd, a, Srl, n) => Encode(i) == 0xB000_0000 + rd * 0x20_0000 + a * 0x1_0000 + 0x200 + n
            case Shift(rd, a, Sra, n) => Encode(i) == 0xB000_0000 + rd * 0x20_0000 + a * 0x1_0000 + 0x400 + n
            case Rdsr(rd, sr) => Encode(i) == 0xB400_0000 + rd * 0x20_0000 + sr
            case _ => true
  {
    hide JoinWord;
    FieldPositions(FieldsOf(i));
  }

  lemma FieldErrors(f: Fields)
    requires f.Valid()
    ensures DecodeFields(f) == Err(IllegalOpcode)
       <==> (f.group == 0 && f.sub > 12) || (f.group == 1 && f.sub > 8) || (f.group == 2 && f.sub > 13) || f.group == 3
    ensures DecodeFields(f) != Err(OpcodeUnimplemented)
  {
  }

  lemma OpcodeOf(w: u32)
    ensures SplitWord(w).group == w / 0x4000_0000 && SplitWord(w).sub == w / 0x400_0000 % 16
  {
  }

  /** A word with none of the 36 opcodes is illegal; any other that is no instruction has a reserved field set. */
  lemma WordErrors(w: u32)
    ensures Decode(w) == Err(IllegalOpcode) <==> var op := w / 0x400_0000; 12 < op < 16 || 24 < op < 32 || 45 < op
    ensures Decode(w) == Err(ReservedFieldNonZero)
       <==> Decode(w) != Err(IllegalOpcode) && forall i: Instr :: Encode(i) != w
  {
    hide DecodeFields, SplitWord, Encode;
    FieldErrors(SplitWord(w));
    OpcodeOf(w);
    if Decode(w).Ok? {
      EncodeDecode(Decode(w).value, w);
      assert Encode(Decode(w).value) == w;
    } else {
      assert Decode(w) == Err(Decode(w).error) && !Decode(w).error.OpcodeUnimplemented?;
      forall i: Instr ensures Encode(i) != w {
        EncodeDecode(i, w);
      }
    }
  }

  /** The words the repository pins for its golden instructions, group by group. */
  lemma GoldenBus()
    ensures Encode(CsDeassert) == 0x0400_0000
    ensures Encode(PutByteImm(0x64)) == 0x0800_0064
    ensures Encode(GetByte(5)) == 0x10A0_0000
    ensures Encode(PutBitsImm(8, 0xAB)) == 0x1400_07AB
  {
    hide JoinWord;
    FieldPositions(FieldsOf(CsDeassert));
    FieldPositions(FieldsOf(PutByteImm(0x64)));
    FieldPositions(FieldsOf(GetByte(5)));
    FieldPositions(FieldsOf(PutBitsImm(8, 0xAB)));
  }

  lemma GoldenWait()
    ensures Encode(WaitOn(5, 1, 0x64)) == 0x54A0_0264
  {
    hide JoinWord;
    FieldPositions(FieldsOf(WaitOn(5, 1, 0x64)));
  }

  lemma GoldenShift()
    ensures Encode(Shift(5, 6, Sra, 3)) == 0xB0A6_0403
  {
    hide JoinWord;
    FieldPositions(FieldsOf(Shift(5, 6, Sra, 3)));
  }
}
