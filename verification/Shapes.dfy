/** Which lines have a meaning: the mnemonics, and the operands each of them takes. */
module Shapes {
  import opened Prelude
  import opened Text
  import opened Isa
  import opened Machine
  import opened Asm
  import opened Encoder
  import opened Operands

  /**
   * What an operand may be: a register of the window, a number or constant in a range, the same but
   * no register's name, the name of a branch target, or a word in any case.
   */
  datatype Kind = Register | Number(lo: int, hi: int) | Bare(lo: int, hi: int) | Target | Word(word: string)

  predicate Between(a: Actual, lo: int, hi: int) { a.imm.Ok? && lo <= a.imm.value <= hi }

  predicate IsOf(a: Actual, kind: Kind) {
    match kind
    case Register => a.op.Ident? && exists n: nat :: n < 16 && RegNumber(a.op.name) == Some(n)
    case Number(lo, hi) => Between(a, lo, hi)
    case Bare(lo, hi) => !(a.op.Ident? && RegNumber(a.op.name).Some?) && Between(a, lo, hi)
    case Target => a.op.Ident?
    case Word(word) => a.op.Ident? && LowerCase(a.op.name) == word
  }

  predicate AreOf(a: seq<Actual>, kinds: seq<Kind>) {
    |a| == |kinds| && forall k :: 0 <= k < |a| ==> IsOf(a[k], kinds[k])
  }

  predicate Shaped(a: seq<Actual>, shapes: seq<seq<Kind>>) { exists i :: 0 <= i < |shapes| && AreOf(a, shapes[i]) }

  /** The operands of every mnemonic; nothing else is one. */
  function ShapesOf(mnemonic: string): seq<seq<Kind>> {
    match mnemonic
    case "cs_assert" | "cs_deassert" | "rst_assert" | "rst_deassert" | "crc_reset" | "nop" => [[]]
    case "put_byte" => [[Register], [Bare(0, 255)]]
    case "put_bits" => [[Register, Number(1, 8)], [Bare(1, 8), Number(0, 255)]]
    case "tar" => [[Register], [Bare(0, 15)]]
    case "get_byte" | "get_alert" => [[Register]]
    case "get_bits" => [[Register, Number(1, 8)]]
    case "halt" => [[Number(0, 255)]]
    case "wait_on" => [[Register, Number(0, 3), Number(0, 511)]]
    case "set_config" =>
      [[Word("controller"), Word("x1"), Word("sck20"), Word("alert_pin")],
       [Word("controller"), Word("x1"), Word("sck20"), Word("alert_io1")]]
    case "mark" => [[Number(0, 2047), Register]]
    case "load_imm" => [[Register, Number(-0x10_0000, 0xF_FFFF)]]
    case "lui" => [[Register, Number(0, 0x1F_FFFF)]]
    case "li" => [[Register, Number(-0x8000_0000, 0xFFFF_FFFF)]]
    case "rdsr" => [[Register, Word("crc")], [Register, Number(0, 31)]]
    case "mov" | "mv" => [[Register, Register]]
    case "add" | "sub" | "and" | "or" | "xor" => [[Register, Register, Register]]
    case "addi" | "andi" | "ori" | "xori" => [[Register, Register, Number(-1024, 1023)]]
    case "sll" | "srl" | "sra" => [[Register, Register, Number(0, 31)]]
    case "beq" | "bne" | "bltu" | "bgeu" => [[Register, Register, Target]]
    case "beqz" | "bnez" => [[Register, Target]]
    case "j" => [[Target]]
    case _ => []
  }

  function ShapesFor(m: Mnemonic): seq<seq<Kind>> {
    match m
    case MCsAssert | MCsDeassert | MRstAssert | MRstDeassert | MCrcReset | MNop => [[]]
    case MPutByte => [[Register], [Bare(0, 255)]]
    case MPutBits => [[Register, Number(1, 8)], [Bare(1, 8), Number(0, 255)]]
    case MTar => [[Register], [Bare(0, 15)]]
    case MGetByte | MGetAlert => [[Register]]
    case MGetBits => [[Register, Number(1, 8)]]
    case MHalt => [[Number(0, 255)]]
    case MWaitOn => [[Register, Number(0, 3), Number(0, 511)]]
    case MSetConfig =>
      [[Word("controller"), Word("x1"), Word("sck20"), Word("alert_pin")],
       [Word("controller"), Word("x1"), Word("sck20"), Word("alert_io1")]]
    case MMark => [[Number(0, 2047), Register]]
    case MLoadImm => [[Register, Number(-0x10_0000, 0xF_FFFF)]]
    case MLui => [[Register, Number(0, 0x1F_FFFF)]]
    case MLi => [[Register, Number(-0x8000_0000, 0xFFFF_FFFF)]]
    case MRdsr => [[Register, Word("crc")], [Register, Number(0, 31)]]
    case MMov => [[Register, Register]]
    case MAdd | MSub | MAnd | MOr | MXor => [[Register, Register, Register]]
    case MAddi | MAndi | MOri | MXori => [[Register, Register, Number(-1024, 1023)]]
    case MSll | MSrl | MSra => [[Register, Register, Number(0, 31)]]
    case MBeq | MBne | MBltu | MBgeu => [[Register, Register, Target]]
    case MBeqz | MBnez => [[Register, Target]]
    case MJ => [[Target]]
    case MUnknown => []
  }

  /** The two tables are one. */
  lemma SameShapes(mnemonic: string)
    ensures ShapesOf(mnemonic) == ShapesFor(MnemonicOf(mnemonic))
  {
  }

  // ----- single operands -----

  lemma RegisterIs(a: Actual)
    ensures ResolveReg(a.op).Ok? <==> IsOf(a, Register)
    ensures IsRegister(a.op) <==> a.op.Ident? && RegNumber(a.op.name).Some?
  {
    hide RegNumber;
  }

  lemma NumberIs(a: Actual, lo: i64, hi: i64)
    ensures InRange(a, lo, hi).Ok? <==> IsOf(a, Number(lo, hi))
  {
  }

  lemma One(a: seq<Actual>, k: Kind)
    ensures Shaped(a, [[k]]) <==> |a| == 1 && IsOf(a[0], k)
  {
    hide IsOf;
    if |a| == 1 && IsOf(a[0], k) {
      assert AreOf(a, [[k]][0]);
    }
  }

  lemma Two(a: seq<Actual>, j: Kind, k: Kind)
    ensures Shaped(a, [[j, k]]) <==> |a| == 2 && IsOf(a[0], j) && IsOf(a[1], k)
  {
    hide IsOf;
    if |a| == 2 && IsOf(a[0], j) && IsOf(a[1], k) {
      assert AreOf(a, [[j, k]][0]);
    }
  }

  lemma Three(a: seq<Actual>, i: Kind, j: Kind, k: Kind)
    ensures Shaped(a, [[i, j, k]]) <==> |a| == 3 && IsOf(a[0], i) && IsOf(a[1], j) && IsOf(a[2], k)
  {
    hide IsOf;
    if |a| == 3 && IsOf(a[0], i) && IsOf(a[1], j) && IsOf(a[2], k) {
      assert AreOf(a, [[i, j, k]][0]);
    }
  }

  lemma Either(a: seq<Actual>, x: seq<Kind>, y: seq<Kind>)
    ensures Shaped(a, [x, y]) <==> Shaped(a, [x]) || Shaped(a, [y])
  {
    hide AreOf;
    if AreOf(a, x) {
      assert AreOf(a, [x, y][0]) && AreOf(a, [x][0]);
    }
    if AreOf(a, y) {
      assert AreOf(a, [x, y][1]) && AreOf(a, [y][0]);
    }
  }

  lemma Nothing(a: seq<Actual>)
    ensures Shaped(a, [[]]) <==> a == []
    ensures !Shaped(a, [])
  {
    if a == [] {
      assert AreOf(a, [[]][0]);
    }
  }

  // ----- mnemonics -----

  lemma BareShapes(m: Mnemonic, a: seq<Actual>)
    requires m in [MCsAssert, MCsDeassert, MRstAssert, MRstDeassert, MCrcReset, MNop]
    ensures ResolveOp(m, a).Ok? <==> Shaped(a, ShapesFor(m))
  {
    hide Shaped, ResolveMixed, ResolveConfig, ResolvePut, ResolvePutBits, ResolveTar, OneReg;
    Nothing(a);
  }

  lemma ThreeRegsIff(a: seq<Actual>)
    ensures ThreeRegs(a).Ok? <==> Shaped(a, [[Register, Register, Register]])
  {
    hide Shaped, IsOf, ResolveReg;
    Three(a, Register, Register, Register);
    if |a| == 3 {
      RegisterIs(a[0]);
      RegisterIs(a[1]);
      RegisterIs(a[2]);
    }
  }

  lemma ThreeShapes(m: Mnemonic, a: seq<Actual>)
    requires m in [MAdd, MSub, MAnd, MOr, MXor]
    ensures ResolveOp(m, a).Ok? <==> Shaped(a, ShapesFor(m))
  {
    hide Shaped, ThreeRegs;
    ThreeRegsIff(a);
  }

  lemma RegRegImmIff(a: seq<Actual>)
    ensures RegRegImm(a).Ok? <==> Shaped(a, [[Register, Register, Number(-1024, 1023)]])
  {
    hide Shaped, IsOf, ResolveReg, InRange, Pattern11;
    Three(a, Register, Register, Number(-1024, 1023));
    if |a| == 3 {
      RegisterIs(a[0]);
      RegisterIs(a[1]);
      NumberIs(a[2], -1024, 1023);
    }
  }

  lemma ImmediateShapes(m: Mnemonic, a: seq<Actual>)
    requires m in [MAddi, MAndi, MOri, MXori]
    ensures ResolveOp(m, a).Ok? <==> Shaped(a, ShapesFor(m))
  {
    hide Shaped, RegRegImm;
    RegRegImmIff(a);
  }

  lemma ShiftIff(a: seq<Actual>, op: ShiftOp)
    ensures ShiftBy(a, op).Ok? <==> Shaped(a, [[Register, Register, Number(0, 31)]])
  {
    hide Shaped, IsOf, ResolveReg, InRange;
    Three(a, Register, Register, Number(0, 31));
    if |a| == 3 {
      RegisterIs(a[0]);
      RegisterIs(a[1]);
      NumberIs(a[2], 0, 31);
    }
  }

  lemma ShiftShapes(m: Mnemonic, a: seq<Actual>)
    requires m in [MSll, MSrl, MSra]
    ensures ResolveOp(m, a).Ok? <==> Shaped(a, ShapesFor(m))
  {
    hide Shaped, ShiftBy;
    ShiftIff(a, Sll);
    ShiftIff(a, Srl);
    ShiftIff(a, Sra);
  }

  lemma MoveShapes(a: seq<Actual>)
    ensures ResolveOp(MMov, a).Ok? <==> Shaped(a, ShapesFor(MMov))
  {
    hide Shaped, IsOf, ResolveReg;
    Two(a, Register, Register);
    if |a| == 2 {
      RegisterIs(a[0]);
      RegisterIs(a[1]);
    }
  }

  lemma LoadShapes(m: Mnemonic, a: seq<Actual>)
    requires m in [MLi, MLoadImm, MLui, MGetBits]
    ensures ResolveOp(m, a).Ok? <==> Shaped(a, ShapesFor(m))
  {
    hide Shaped, IsOf, ResolveReg, InRange, Pattern21, Wrap;
    Two(a, Register, Number(-0x8000_0000, 0xFFFF_FFFF));
    Two(a, Register, Number(-0x10_0000, 0xF_FFFF));
    Two(a, Register, Number(0, 0x1F_FFFF));
    Two(a, Register, Number(1, 8));
    if |a| == 2 {
      RegisterIs(a[0]);
      NumberIs(a[1], -0x8000_0000, 0xFFFF_FFFF);
      NumberIs(a[1], -0x10_0000, 0xF_FFFF);
      NumberIs(a[1], 0, 0x1F_FFFF);
      NumberIs(a[1], 1, 8);
    }
  }

  lemma TargetIs(a: Actual)
    ensures Encoder.Target(a).Ok? <==> IsOf(a, Target)
  {
  }

  lemma BranchToIff(a: seq<Actual>, op: BranchOp)
    ensures BranchTo(a, op).Ok? <==> Shaped(a, [[Register, Register, Target]])
    ensures BranchZero(a, op).Ok? <==> Shaped(a, [[Register, Target]])
  {
    hide Shaped, IsOf, ResolveReg, Encoder.Target;
    Three(a, Register, Register, Target);
    Two(a, Register, Target);
    forall k | 0 <= k < |a|
      ensures ResolveReg(a[k].op).Ok? <==> IsOf(a[k], Register)
      ensures Encoder.Target(a[k]).Ok? <==> IsOf(a[k], Target)
    {
      RegisterIs(a[k]);
      TargetIs(a[k]);
    }
  }

  lemma BranchShapes(m: Mnemonic, a: seq<Actual>)
    requires m in [MBeq, MBne, MBltu, MBgeu, MBeqz, MBnez]
    ensures ResolveOp(m, a).Ok? <==> Shaped(a, ShapesFor(m))
  {
    hide Shaped, BranchTo, BranchZero;
    BranchToIff(a, Equal);
    BranchToIff(a, NotEqual);
    BranchToIff(a, Below);
    BranchToIff(a, NotBelow);
  }

  lemma JumpShapes(a: seq<Actual>)
    ensures ResolveOp(MJ, a).Ok? <==> Shaped(a, ShapesFor(MJ))
  {
    hide Shaped;
    One(a, Target);
  }

  lemma SampleShapes(m: Mnemonic, a: seq<Actual>)
    requires m in [MGetByte, MGetAlert, MHalt]
    ensures ResolveOp(m, a).Ok? <==> Shaped(a, ShapesFor(m))
  {
    hide Shaped, IsOf, ResolveReg, InRange;
    One(a, Register);
    One(a, Number(0, 255));
    if |a| == 1 {
      RegisterIs(a[0]);
      NumberIs(a[0], 0, 255);
    }
  }

  lemma WaitShapes(a: seq<Actual>)
    ensures ResolveOp(MWaitOn, a).Ok? <==> Shaped(a, ShapesFor(MWaitOn))
  {
    hide Shaped, IsOf, ResolveReg, InRange;
    Three(a, Register, Number(0, 3), Number(0, 511));
    if |a| == 3 {
      RegisterIs(a[0]);
      NumberIs(a[1], 0, 3);
      NumberIs(a[2], 0, 511);
    }
  }

  lemma MarkShapes(a: seq<Actual>)
    ensures ResolveOp(MMark, a).Ok? <==> Shaped(a, ShapesFor(MMark))
  {
    hide Shaped, IsOf, ResolveReg, InRange;
    Two(a, Number(0, 2047), Register);
    if |a| == 2 {
      NumberIs(a[0], 0, 2047);
      RegisterIs(a[1]);
    }
  }

  /** A register, or what is none and a number in range. */
  lemma BareIs(a: Actual, lo: i64, hi: i64)
    ensures !IsRegister(a.op) ==> (InRange(a, lo, hi).Ok? <==> IsOf(a, Bare(lo, hi)))
    ensures IsRegister(a.op) ==> !IsOf(a, Bare(lo, hi))
    ensures !IsRegister(a.op) ==> !IsOf(a, Register)
  {
    hide RegNumber;
  }

  lemma PutShapes(m: Mnemonic, a: seq<Actual>)
    requires m in [MPutByte, MTar]
    ensures ResolveOp(m, a).Ok? <==> Shaped(a, ShapesFor(m))
  {
    hide Shaped, IsOf, ResolveReg, InRange, IsRegister;
    Either(a, [Register], [Bare(0, 255)]);
    Either(a, [Register], [Bare(0, 15)]);
    One(a, Register);
    One(a, Bare(0, 255));
    One(a, Bare(0, 15));
    if |a| == 1 {
      RegisterIs(a[0]);
      BareIs(a[0], 0, 255);
      BareIs(a[0], 0, 15);
    }
  }

  lemma PutBitsShapes(a: seq<Actual>)
    ensures ResolveOp(MPutBits, a).Ok? <==> Shaped(a, ShapesFor(MPutBits))
  {
    hide Shaped, IsOf, ResolveReg, InRange, IsRegister;
    Either(a, [Register, Number(1, 8)], [Bare(1, 8), Number(0, 255)]);
    Two(a, Register, Number(1, 8));
    Two(a, Bare(1, 8), Number(0, 255));
    if |a| == 2 {
      RegisterIs(a[0]);
      BareIs(a[0], 1, 8);
      NumberIs(a[1], 1, 8);
      NumberIs(a[1], 0, 255);
    }
  }

  lemma SrIs(a: Actual)
    ensures ResolveSr(a).Ok? <==> IsOf(a, Word("crc")) || IsOf(a, Number(0, 31))
  {
    hide LowerCase;
  }

  lemma StatusShapes(a: seq<Actual>)
    ensures ResolveOp(MRdsr, a).Ok? <==> Shaped(a, ShapesFor(MRdsr))
  {
    hide Shaped, IsOf, ResolveReg, ResolveSr;
    Either(a, [Register, Word("crc")], [Register, Number(0, 31)]);
    Two(a, Register, Word("crc"));
    Two(a, Register, Number(0, 31));
    if |a| == 2 {
      RegisterIs(a[0]);
      SrIs(a[1]);
    }
  }

  /** Four words. */
  lemma Four(a: seq<Actual>, w: string, x: string, y: string, z: string)
    requires w != "" && x != "" && y != "" && z != ""
    ensures Shaped(a, [[Word(w), Word(x), Word(y), Word(z)]])
       <==> |a| == 4 && Keyword(a[0]) == w && Keyword(a[1]) == x && Keyword(a[2]) == y && Keyword(a[3]) == z
  {
    hide LowerCase;
    if |a| == 4 && Keyword(a[0]) == w && Keyword(a[1]) == x && Keyword(a[2]) == y && Keyword(a[3]) == z {
      assert AreOf(a, [[Word(w), Word(x), Word(y), Word(z)]][0]);
    }
  }

  lemma ConfigShapes(a: seq<Actual>)
    ensures ResolveOp(MSetConfig, a).Ok? <==> Shaped(a, ShapesFor(MSetConfig))
  {
    hide Shaped, Keyword, ResolveConfig;
    Either(a, [Word("controller"), Word("x1"), Word("sck20"), Word("alert_pin")],
              [Word("controller"), Word("x1"), Word("sck20"), Word("alert_io1")]);
    Four(a, "controller", "x1", "sck20", "alert_pin");
    Four(a, "controller", "x1", "sck20", "alert_io1");
    ConfigIs(a);
  }

  lemma OpShapes(m: Mnemonic, a: seq<Actual>)
    ensures ResolveOp(m, a).Ok? <==> Shaped(a, ShapesFor(m))
  {
    hide ResolveOp, Shaped, ShapesFor;
    match m
    case MCsAssert | MCsDeassert | MRstAssert | MRstDeassert | MCrcReset | MNop => BareShapes(m, a);
    case MPutByte | MTar => PutShapes(m, a);
    case MPutBits => PutBitsShapes(a);
    case MGetByte | MGetAlert | MHalt => SampleShapes(m, a);
    case MWaitOn => WaitShapes(a);
    case MSetConfig => ConfigShapes(a);
    case MMark => MarkShapes(a);
    case MLi | MLoadImm | MLui | MGetBits => LoadShapes(m, a);
    case MRdsr => StatusShapes(a);
    case MMov => MoveShapes(a);
    case MAdd | MSub | MAnd | MOr | MXor => ThreeShapes(m, a);
    case MAddi | MAndi | MOri | MXori => ImmediateShapes(m, a);
    case MSll | MSrl | MSra => ShiftShapes(m, a);
    case MBeq | MBne | MBltu | MBgeu | MBeqz | MBnez => BranchShapes(m, a);
    case MJ => JumpShapes(a);
    case MUnknown => UnknownShapes(a);
  }

  lemma UnknownShapes(a: seq<Actual>)
    ensures ResolveOp(MUnknown, a).Err? && !Shaped(a, ShapesFor(MUnknown))
  {
    Nothing(a);
  }

  /** A line has a meaning exactly when its operands have a shape its mnemonic takes. */
  lemma MeaningIff(mnemonic: string, ops: seq<Operand>, syms: Symbols)
    ensures Resolve(mnemonic, ops, syms).Ok? <==> Shaped(Args(ops, syms), ShapesOf(mnemonic))
  {
    hide ResolveOp, Shaped, ShapesOf, ShapesFor, MnemonicOf;
    SameShapes(mnemonic);
    OpShapes(MnemonicOf(mnemonic), Args(ops, syms));
  }

  const BRANCHES: seq<string> := ["beq", "bne", "bltu", "bgeu", "beqz", "bnez", "j"]

  predicate BranchesTo(mnemonic: string, ops: seq<Operand>, target: string) {
    mnemonic in BRANCHES && ops != [] && ops[|ops| - 1] == Ident(target)
  }

  /** A label within reach of an instruction at `addr`. */
  predicate Reached(target: string, addr: u16, syms: Symbols) {
    target in syms && syms[target].LabelAt? && -1024 <= syms[target].addr - addr <= 1023
  }

  lemma BranchMnemonics(mnemonic: string)
    ensures mnemonic in BRANCHES <==> JumpMnemonic(MnemonicOf(mnemonic))
  {
  }

  lemma JumpTarget(m: Mnemonic, a: seq<Actual>)
    requires JumpMnemonic(m) && ResolveOp(m, a).Ok?
    ensures a != [] && ResolveOp(m, a).value.Jump? && a[|a| - 1].op == Ident(ResolveOp(m, a).value.target)
  {
    hide ResolveReg;
  }

  lemma NoJump(m: Mnemonic, a: seq<Actual>)
    requires !JumpMnemonic(m) && ResolveOp(m, a).Ok?
    ensures !ResolveOp(m, a).value.Jump?
  {
    hide ResolvePlain, ResolveReg, LiValue;
  }

  /** It encodes at an address if moreover the label it branches to, if it does, is within reach. */
  lemma EncodesIff(mnemonic: string, ops: seq<Operand>, addr: u16, syms: Symbols)
    ensures EncodeLine(mnemonic, ops, addr, syms).Ok?
       <==> && Shaped(Args(ops, syms), ShapesOf(mnemonic))
            && forall target :: BranchesTo(mnemonic, ops, target) ==> Reached(target, addr, syms)
  {
    hide ResolveOp, Shaped, ShapesOf, MnemonicOf, TileLi, BRANCHES, JumpMnemonic;
    MeaningIff(mnemonic, ops, syms);
    BranchMnemonics(mnemonic);
    var m, a := MnemonicOf(mnemonic), Args(ops, syms);
    if ResolveOp(m, a).Ok? {
      if JumpMnemonic(m) {
        JumpTarget(m, a);
        assert BranchesTo(mnemonic, ops, ResolveOp(m, a).value.target);
      } else {
        NoJump(m, a);
      }
    }
  }
}
