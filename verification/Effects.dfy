/**
 * What one line of assembler does, mnemonic by mnemonic, from any running state. Nothing here speaks
 * of how lines are resolved or encoded.
 */
module Effects {
  import opened Prelude
  import opened Isa
  import opened Machine
  import opened Asm
  import opened Encoder
  import opened Assembler
  import opened LabelMachine
  import opened Operands
  import opened Tiling
  import B = Bits

  // ----- the vocabulary of the statements -----

  type Window = n: nat | n < 16

  /** The machine is about to run this line. */
  predicate On(lines: seq<Line>, s: State, mnemonic: string, ops: seq<Operand>) {
    s.status == Running && 0 <= s.pc < |lines| && lines[s.pc] == Op(mnemonic, ops)
  }

  /** The operand is a name of register `n`. */
  predicate Names(op: Operand, n: Window) { op.Ident? && (Numbered(op.name, n) || Conventional(op.name, n)) }

  predicate NoRegister(op: Operand) {
    op.Num? || forall n: nat :: n < 32 ==> !Numbered(op.name, n) && !Conventional(op.name, n)
  }

  /** The operand is the number `v`, or a constant that is. */
  predicate Worth(lines: seq<Line>, op: Operand, v: i64) {
    op == Num(v) || (op.Ident? && op.name in Equs(lines) && Equs(lines)[op.name] == Equ(v))
  }

  /** What register `n` holds. */
  function X(s: State, n: Window): u32 { if n == 0 then 0 else s.regs[n] }

  /** The next line, register `n` holding `v`. */
  function Wrote(s: State, n: Window, v: u32): State {
    s.(pc := s.pc + 1, regs := if n == 0 then s.regs else s.regs[n := v])
  }

  /** The next line, the device having changed. */
  function Did(s: State, dev: Device): State { s.(pc := s.pc + 1, dev := dev) }

  /** The next line, and one more event to see. */
  function Showed(s: State, e: Event): State { Did(s, s.dev.(log := s.dev.log + [e])) }

  /** The line that defines `target`, if the branch is taken. */
  function Went(lines: seq<Line>, s: State, target: string, taken: bool): State {
    s.(pc := if taken then FindLabel(lines, target, 0) else s.pc + 1)
  }

  function NoMeaning(s: State): State { s.(status := Undefined) }

  // ----- from lines to instructions -----

  function Resolution(lines: seq<Line>, s: State, r: Resolved): State {
    match r case Ok(m) => ExecMeaning(lines, s, m) case Err(_) => NoMeaning(s)
  }

  lemma StepOf(lines: seq<Line>, s: State, mnemonic: string, ops: seq<Operand>)
    requires On(lines, s, mnemonic, ops)
    ensures StepLine(lines, s) == Resolution(lines, s, ResolveOp(MnemonicOf(mnemonic), Args(ops, Equs(lines))))
  {
    hide ResolveOp, MnemonicOf, ExecMeaning, Equs;
  }

  lemma NamesResolve(op: Operand, n: Window)
    requires Names(op, n)
    ensures ResolveReg(op) == Ok(n) && IsRegister(op)
  {
    hide RegNumber;
    RegisterIff(op.name, n);
  }

  lemma NotRegister(op: Operand)
    requires NoRegister(op)
    ensures !IsRegister(op)
  {
    hide RegNumber, Numbered, Conventional;
    if op.Ident? && RegNumber(op.name).Some? {
      RegisterIff(op.name, RegNumber(op.name).value);
    }
  }

  lemma WorthResolves(lines: seq<Line>, op: Operand, v: i64)
    requires Worth(lines, op, v)
    ensures ResolveImm(op, Equs(lines)) == Ok(v)
  {
    hide Equs;
  }

  lemma Reads(s: State, n: Window)
    ensures Read(s.regs, n) == X(s, n)
  {
  }

  lemma Writes(s: State, e: Effect, n: Window, v: u32)
    requires s.status == Running && e == Effect(Write(s.regs, n, v), s.dev, Running)
    ensures After(s, e) == Wrote(s, n, v)
  {
  }

  // ----- branches -----

  lemma BranchStep(lines: seq<Line>, s: State, mnemonic: string, ops: seq<Operand>, op: BranchOp,
                   p: Window, q: Window, target: string)
    requires On(lines, s, mnemonic, ops)
    requires ResolveOp(MnemonicOf(mnemonic), Args(ops, Equs(lines))) == Ok(Jump(op, p, q, target))
    ensures StepLine(lines, s) == Went(lines, s, target, Taken(op, X(s, p), X(s, q)))
  {
    hide On, MnemonicOf, ResolveOp, StepLine, Taken, FindLabel, Equs, Args;
    StepOf(lines, s, mnemonic, ops);
    Reads(s, p);
    Reads(s, q);
  }

  lemma CompareStep(lines: seq<Line>, s: State, mnemonic: string, m: Mnemonic, op: BranchOp,
                    x: Operand, y: Operand, target: string, p: Window, q: Window)
    requires On(lines, s, mnemonic, [x, y, Ident(target)]) && Names(x, p) && Names(y, q)
    requires MnemonicOf(mnemonic) == m
    requires (m, op) in [(MBeq, Equal), (MBne, NotEqual), (MBltu, Below), (MBgeu, NotBelow)]
    ensures StepLine(lines, s) == Went(lines, s, target, Taken(op, X(s, p), X(s, q)))
  {
    hide On, MnemonicOf, StepLine, Taken, FindLabel, Equs, Names, ResolveReg, Went, X;
    var ops := [x, y, Ident(target)];
    NamesResolve(x, p);
    NamesResolve(y, q);
    BranchStep(lines, s, mnemonic, ops, op, p, q, target);
  }

  lemma BeqSteps(lines: seq<Line>, s: State, x: Operand, y: Operand, target: string, p: Window, q: Window)
    requires On(lines, s, "beq", [x, y, Ident(target)]) && Names(x, p) && Names(y, q)
    ensures StepLine(lines, s) == Went(lines, s, target, X(s, p) == X(s, q))
  {
    hide On, StepLine, Went, X, Names;
    CompareStep(lines, s, "beq", MBeq, Equal, x, y, target, p, q);
  }

  lemma BneSteps(lines: seq<Line>, s: State, x: Operand, y: Operand, target: string, p: Window, q: Window)
    requires On(lines, s, "bne", [x, y, Ident(target)]) && Names(x, p) && Names(y, q)
    ensures StepLine(lines, s) == Went(lines, s, target, X(s, p) != X(s, q))
  {
    hide On, StepLine, Went, X, Names;
    CompareStep(lines, s, "bne", MBne, NotEqual, x, y, target, p, q);
  }

  /** Registers are compared as unsigned numbers. */
  lemma BltuSteps(lines: seq<Line>, s: State, x: Operand, y: Operand, target: string, p: Window, q: Window)
    requires On(lines, s, "bltu", [x, y, Ident(target)]) && Names(x, p) && Names(y, q)
    ensures StepLine(lines, s) == Went(lines, s, target, X(s, p) < X(s, q))
  {
    hide On, StepLine, Went, X, Names;
    CompareStep(lines, s, "bltu", MBltu, Below, x, y, target, p, q);
  }

  lemma BgeuSteps(lines: seq<Line>, s: State, x: Operand, y: Operand, target: string, p: Window, q: Window)
    requires On(lines, s, "bgeu", [x, y, Ident(target)]) && Names(x, p) && Names(y, q)
    ensures StepLine(lines, s) == Went(lines, s, target, X(s, p) >= X(s, q))
  {
    hide On, StepLine, Went, X, Names;
    CompareStep(lines, s, "bgeu", MBgeu, NotBelow, x, y, target, p, q);
  }

  lemma ZeroStep(lines: seq<Line>, s: State, mnemonic: string, m: Mnemonic, op: BranchOp,
                 x: Operand, target: string, p: Window)
    requires On(lines, s, mnemonic, [x, Ident(target)]) && Names(x, p)
    requires MnemonicOf(mnemonic) == m && (m, op) in [(MBeqz, Equal), (MBnez, NotEqual)]
    ensures StepLine(lines, s) == Went(lines, s, target, Taken(op, X(s, p), 0))
  {
    hide On, MnemonicOf, StepLine, Taken, FindLabel, Equs, Names, ResolveReg, Went;
    NamesResolve(x, p);
    BranchStep(lines, s, mnemonic, [x, Ident(target)], op, p, 0, target);
  }

  lemma BeqzSteps(lines: seq<Line>, s: State, x: Operand, target: string, p: Window)
    requires On(lines, s, "beqz", [x, Ident(target)]) && Names(x, p)
    ensures StepLine(lines, s) == Went(lines, s, target, X(s, p) == 0)
  {
    hide On, StepLine, Went, X, Names;
    ZeroStep(lines, s, "beqz", MBeqz, Equal, x, target, p);
  }

  lemma BnezSteps(lines: seq<Line>, s: State, x: Operand, target: string, p: Window)
    requires On(lines, s, "bnez", [x, Ident(target)]) && Names(x, p)
    ensures StepLine(lines, s) == Went(lines, s, target, X(s, p) != 0)
  {
    hide On, StepLine, Went, X, Names;
    ZeroStep(lines, s, "bnez", MBnez, NotEqual, x, target, p);
  }

  lemma JumpSteps(lines: seq<Line>, s: State, target: string)
    requires On(lines, s, "j", [Ident(target)])
    ensures StepLine(lines, s) == Went(lines, s, target, true)
  {
    hide On, StepLine, Went, X, Equs;
    BranchStep(lines, s, "j", [Ident(target)], Equal, 0, 0, target);
  }

  // ----- lines that are one instruction -----

  lemma PlainStep(lines: seq<Line>, s: State, mnemonic: string, ops: seq<Operand>, i: Straight)
    requires On(lines, s, mnemonic, ops)
    requires ResolveOp(MnemonicOf(mnemonic), Args(ops, Equs(lines))) == Ok(Plain(i))
    ensures StepLine(lines, s) == After(s, Exec(i, s.regs, s.dev))
  {
    hide On, MnemonicOf, ResolveOp, StepLine, Exec, Equs, Args;
    StepOf(lines, s, mnemonic, ops);
  }

  /** A line that writes a value to a register. */
  lemma DataStep(lines: seq<Line>, s: State, mnemonic: string, ops: seq<Operand>, i: Straight, d: Window)
    requires On(lines, s, mnemonic, ops) && IsData(i) && i.rd == d
    requires ResolveOp(MnemonicOf(mnemonic), Args(ops, Equs(lines))) == Ok(Plain(i))
    ensures StepLine(lines, s) == Wrote(s, d, DataValue(i, s.regs))
  {
    hide MnemonicOf, ResolveOp, StepLine, DataValue, Equs, Args;
    PlainStep(lines, s, mnemonic, ops, i);
    Writes(s, Exec(i, s.regs, s.dev), d, DataValue(i, s.regs));
  }

  lemma BadStep(lines: seq<Line>, s: State, mnemonic: string, ops: seq<Operand>)
    requires On(lines, s, mnemonic, ops)
    requires ResolveOp(MnemonicOf(mnemonic), Args(ops, Equs(lines))).Err?
    ensures StepLine(lines, s) == NoMeaning(s)
  {
    hide On, MnemonicOf, ResolveOp, StepLine, Equs, Args;
    StepOf(lines, s, mnemonic, ops);
  }

  // ----- moving values -----

  lemma NopSteps(lines: seq<Line>, s: State)
    requires On(lines, s, "nop", [])
    ensures StepLine(lines, s) == s.(pc := s.pc + 1)
  {
    hide On, StepLine, Equs;
    assert Args([], Equs(lines)) == [];
    DataStep(lines, s, "nop", [], Addi(0, 0, 0), 0);
  }

  lemma MoveStep(lines: seq<Line>, s: State, mnemonic: string, x: Operand, y: Operand, d: Window, p: Window)
    requires On(lines, s, mnemonic, [x, y]) && MnemonicOf(mnemonic) == MMov && Names(x, d) && Names(y, p)
    ensures StepLine(lines, s) == Wrote(s, d, X(s, p))
  {
    hide On, Names, MnemonicOf, ResolveReg, StepLine, Equs, Wrote;
    NamesResolve(x, d);
    NamesResolve(y, p);
    Reads(s, p);
    DataStep(lines, s, mnemonic, [x, y], Mov(d, p), d);
  }

  lemma MovSteps(lines: seq<Line>, s: State, x: Operand, y: Operand, d: Window, p: Window)
    requires On(lines, s, "mov", [x, y]) && Names(x, d) && Names(y, p)
    ensures StepLine(lines, s) == Wrote(s, d, X(s, p))
  {
    hide On, Names, StepLine, Wrote, X;
    MoveStep(lines, s, "mov", x, y, d, p);
  }

  lemma MvSteps(lines: seq<Line>, s: State, x: Operand, y: Operand, d: Window, p: Window)
    requires On(lines, s, "mv", [x, y]) && Names(x, d) && Names(y, p)
    ensures StepLine(lines, s) == Wrote(s, d, X(s, p))
  {
    hide On, Names, StepLine, Wrote, X;
    MoveStep(lines, s, "mv", x, y, d, p);
  }

  // Constants. A value out of range leaves the line without meaning.

  lemma LoadsConst(lines: seq<Line>, s: State, ops: seq<Operand>, d: Window, v: u32)
    requires On(lines, s, "li", ops)
    requires ResolveOp(MnemonicOf("li"), Args(ops, Equs(lines))) == Ok(LoadConst(d, v))
    ensures StepLine(lines, s) == Wrote(s, d, v)
  {
    hide MnemonicOf, ResolveOp, StepLine, Equs, Args;
    StepOf(lines, s, "li", ops);
  }

  /** Any 32-bit pattern, written as a signed or as an unsigned number. */
  lemma LiSteps(lines: seq<Line>, s: State, x: Operand, y: Operand, d: Window, v: i64)
    requires On(lines, s, "li", [x, y]) && Names(x, d) && Worth(lines, y, v)
    ensures StepLine(lines, s)
         == if -0x8000_0000 <= v <= 0xFFFF_FFFF then Wrote(s, d, v % 0x1_0000_0000) else NoMeaning(s)
  {
    hide On, Names, Worth, StepLine, Equs, ResolveImm, ResolveReg, Wrote, NoMeaning;
    WorthResolves(lines, y, v);
    NamesResolve(x, d);
    if -0x8000_0000 <= v <= 0xFFFF_FFFF {
      LoadsConst(lines, s, [x, y], d, Wrap(v));
    } else {
      BadStep(lines, s, "li", [x, y]);
    }
  }

  /** A signed number of 21 bits. */
  lemma LoadImmSteps(lines: seq<Line>, s: State, x: Operand, y: Operand, d: Window, v: i64)
    requires On(lines, s, "load_imm", [x, y]) && Names(x, d) && Worth(lines, y, v)
    ensures StepLine(lines, s)
         == if -0x10_0000 <= v <= 0xF_FFFF then Wrote(s, d, v % 0x1_0000_0000) else NoMeaning(s)
  {
    hide On, Names, Worth, StepLine, Equs, ResolveImm, ResolveReg, Wrote, NoMeaning, Pattern21, Sext21;
    WorthResolves(lines, y, v);
    NamesResolve(x, d);
    if -0x10_0000 <= v <= 0xF_FFFF {
      Sext21Pattern(v);
      DataStep(lines, s, "load_imm", [x, y], LoadImm(d, Pattern21(v)), d);
    } else {
      BadStep(lines, s, "load_imm", [x, y]);
    }
  }

  /** The upper 21 bits. */
  lemma LuiSteps(lines: seq<Line>, s: State, x: Operand, y: Operand, d: Window, v: i64)
    requires On(lines, s, "lui", [x, y]) && Names(x, d) && Worth(lines, y, v)
    ensures StepLine(lines, s) == if 0 <= v <= 0x1F_FFFF then Wrote(s, d, v * 2048) else NoMeaning(s)
  {
    hide On, Names, Worth, StepLine, Equs, ResolveImm, ResolveReg, Wrote, NoMeaning;
    WorthResolves(lines, y, v);
    NamesResolve(x, d);
    if 0 <= v <= 0x1F_FFFF {
      DataStep(lines, s, "lui", [x, y], Lui(d, v), d);
    } else {
      BadStep(lines, s, "lui", [x, y]);
    }
  }

  // ----- arithmetic and logic -----

  lemma ThreeOps(a: seq<Actual>, x: Operand, y: Operand, z: Operand, d: Window, p: Window, q: Window)
    requires |a| == 3 && a[0].op == x && a[1].op == y && a[2].op == z && Names(x, d) && Names(y, p) && Names(z, q)
    ensures ThreeRegs(a) == Ok(Triple(d, p, q))
  {
    hide ResolveReg, Names;
    NamesResolve(x, d);
    NamesResolve(y, p);
    NamesResolve(z, q);
  }

  lemma ThreeInstr(m: Mnemonic, a: seq<Actual>, d: Window, p: Window, q: Window, i: Straight)
    requires ThreeRegs(a) == Ok(Triple(d, p, q))
    requires (m, i) in [(MAdd, Add(d, p, q)), (MSub, Sub(d, p, q)), (MAnd, And(d, p, q)), (MOr, Or(d, p, q)),
                        (MXor, Xor(d, p, q))]
    ensures ResolveOp(m, a) == Ok(Plain(i))
  {
    hide ThreeRegs, RegRegImm, ShiftBy, ResolveMove, NoOperands, ResolveBus;
  }

  lemma ThreeStep(lines: seq<Line>, s: State, mnemonic: string, x: Operand, y: Operand, z: Operand,
                  d: Window, p: Window, q: Window, i: Straight)
    requires On(lines, s, mnemonic, [x, y, z]) && Names(x, d) && Names(y, p) && Names(z, q)
    requires (MnemonicOf(mnemonic), i) in [(MAdd, Add(d, p, q)), (MSub, Sub(d, p, q)), (MAnd, And(d, p, q)),
                                           (MOr, Or(d, p, q)), (MXor, Xor(d, p, q))]
    ensures StepLine(lines, s) == Wrote(s, d, DataValue(i, s.regs))
  {
    hide On, Names, MnemonicOf, ResolveOp, ThreeRegs, StepLine, Equs, Wrote, DataValue;
    var a := Args([x, y, z], Equs(lines));
    ThreeOps(a, x, y, z, d, p, q);
    ThreeInstr(MnemonicOf(mnemonic), a, d, p, q, i);
    DataStep(lines, s, mnemonic, [x, y, z], i, d);
  }

  lemma AddSteps(lines: seq<Line>, s: State, x: Operand, y: Operand, z: Operand, d: Window, p: Window, q: Window)
    requires On(lines, s, "add", [x, y, z]) && Names(x, d) && Names(y, p) && Names(z, q)
    ensures StepLine(lines, s) == Wrote(s, d, (X(s, p) + X(s, q)) % 0x1_0000_0000)
  {
    hide On, Names, StepLine, Wrote, X, Read;
    Reads(s, p);
    Reads(s, q);
    ThreeStep(lines, s, "add", x, y, z, d, p, q, Add(d, p, q));
  }

  lemma SubSteps(lines: seq<Line>, s: State, x: Operand, y: Operand, z: Operand, d: Window, p: Window, q: Window)
    requires On(lines, s, "sub", [x, y, z]) && Names(x, d) && Names(y, p) && Names(z, q)
    ensures StepLine(lines, s) == Wrote(s, d, (X(s, p) - X(s, q)) % 0x1_0000_0000)
  {
    hide On, Names, StepLine, Wrote, X, Read;
    Reads(s, p);
    Reads(s, q);
    ThreeStep(lines, s, "sub", x, y, z, d, p, q, Sub(d, p, q));
  }

  lemma AddiSteps(lines: seq<Line>, s: State, x: Operand, y: Operand, z: Operand, d: Window, p: Window, v: i64)
    requires On(lines, s, "addi", [x, y, z]) && Names(x, d) && Names(y, p) && Worth(lines, z, v)
    ensures StepLine(lines, s)
         == if -1024 <= v <= 1023 then Wrote(s, d, (X(s, p) + v) % 0x1_0000_0000) else NoMeaning(s)
  {
    hide On, Names, Worth, StepLine, Wrote, NoMeaning, X, Read, Sext11, Pattern11;
    Reads(s, p);
    ImmStep(lines, s, "addi", x, y, z, d, p, v, Addi(d, p, Pattern11(v)));
    if -1024 <= v <= 1023 {
      Sext11Pattern(v);
    }
  }

  lemma ImmOps(a: seq<Actual>, x: Operand, y: Operand, d: Window, p: Window, v: i64)
    requires |a| == 3 && a[0].op == x && a[1].op == y && Names(x, d) && Names(y, p) && a[2].imm == Ok(v)
    ensures RegRegImm(a) == if -1024 <= v <= 1023 then Ok(Pair(d, p, Pattern11(v))) else Err(BadLine)
    ensures forall op :: ShiftBy(a, op) == if 0 <= v <= 31 then Ok(Shift(d, p, op, v)) else Err(BadLine)
  {
    hide ResolveReg, Names, Pattern11;
    NamesResolve(x, d);
    NamesResolve(y, p);
  }

  lemma ImmInstr(m: Mnemonic, a: seq<Actual>, d: Window, p: Window, imm: Imm11, i: Straight)
    requires (m, i) in [(MAddi, Addi(d, p, imm)), (MAndi, Andi(d, p, imm)), (MOri, Ori(d, p, imm)),
                        (MXori, Xori(d, p, imm))]
    ensures RegRegImm(a) == Ok(Pair(d, p, imm)) ==> ResolveOp(m, a) == Ok(Plain(i))
    ensures RegRegImm(a).Err? ==> ResolveOp(m, a).Err?
  {
    hide ThreeRegs, RegRegImm, ShiftBy, ResolveMove, NoOperands, ResolveBus;
  }

  lemma ImmStep(lines: seq<Line>, s: State, mnemonic: string, x: Operand, y: Operand, z: Operand,
                d: Window, p: Window, v: i64, i: Straight)
    requires On(lines, s, mnemonic, [x, y, z]) && Names(x, d) && Names(y, p) && Worth(lines, z, v)
    requires (MnemonicOf(mnemonic), i) in [(MAddi, Addi(d, p, Pattern11(v))), (MAndi, Andi(d, p, Pattern11(v))),
                                           (MOri, Ori(d, p, Pattern11(v))), (MXori, Xori(d, p, Pattern11(v)))]
    ensures StepLine(lines, s) == if -1024 <= v <= 1023 then Wrote(s, d, DataValue(i, s.regs)) else NoMeaning(s)
  {
    hide On, Names, Worth, MnemonicOf, ResolveOp, RegRegImm, ResolveImm, StepLine, Equs, Wrote, NoMeaning, DataValue,
         Pattern11;
    var a := Args([x, y, z], Equs(lines));
    WorthResolves(lines, z, v);
    ImmOps(a, x, y, d, p, v);
    ImmInstr(MnemonicOf(mnemonic), a, d, p, Pattern11(v), i);
    if -1024 <= v <= 1023 {
      DataStep(lines, s, mnemonic, [x, y, z], i, d);
    } else {
      BadStep(lines, s, mnemonic, [x, y, z]);
    }
  }

  lemma BitOpBit(i: Instr, u: u32, v: u32, k: nat)
    requires k < 32
    ensures i.And? || i.Andi? ==> (B.Bit(BitOp(i, u, v), k) <==> B.Bit(u, k) && B.Bit(v, k))
    ensures i.Or? || i.Ori? ==> (B.Bit(BitOp(i, u, v), k) <==> B.Bit(u, k) || B.Bit(v, k))
    ensures i.Xor? || i.Xori? ==> (B.Bit(BitOp(i, u, v), k) <==> B.Bit(u, k) != B.Bit(v, k))
  {
    hide B.Bitwise, B.Bit;
    B.Powers();
    var g := if i.And? || i.Andi? then B.AndGate else if i.Or? || i.Ori? then B.OrGate else B.XorGate;
    B.BitwiseBit(g, u, v, 32, k);
  }

  lemma AndSteps(lines: seq<Line>, s: State, x: Operand, y: Operand, z: Operand, d: Window, p: Window, q: Window)
    returns (r: u32)
    requires On(lines, s, "and", [x, y, z]) && Names(x, d) && Names(y, p) && Names(z, q)
    ensures StepLine(lines, s) == Wrote(s, d, r)
    ensures forall k :: 0 <= k < 32 ==> B.Bit(r, k) == (B.Bit(X(s, p), k) && B.Bit(X(s, q), k))
  {
    hide On, Names, StepLine, Wrote, X, Read, BitOp, B.Bit;
    Reads(s, p);
    Reads(s, q);
    ThreeStep(lines, s, "and", x, y, z, d, p, q, And(d, p, q));
    r := BitOp(And(d, p, q), X(s, p), X(s, q));
    forall k | 0 <= k < 32 ensures B.Bit(r, k) == (B.Bit(X(s, p), k) && B.Bit(X(s, q), k)) {
      BitOpBit(And(d, p, q), X(s, p), X(s, q), k);
    }
  }

  lemma OrSteps(lines: seq<Line>, s: State, x: Operand, y: Operand, z: Operand, d: Window, p: Window, q: Window)
    returns (r: u32)
    requires On(lines, s, "or", [x, y, z]) && Names(x, d) && Names(y, p) && Names(z, q)
    ensures StepLine(lines, s) == Wrote(s, d, r)
    ensures forall k :: 0 <= k < 32 ==> B.Bit(r, k) == (B.Bit(X(s, p), k) || B.Bit(X(s, q), k))
  {
    hide On, Names, StepLine, Wrote, X, Read, BitOp, B.Bit;
    Reads(s, p);
    Reads(s, q);
    ThreeStep(lines, s, "or", x, y, z, d, p, q, Or(d, p, q));
    r := BitOp(Or(d, p, q), X(s, p), X(s, q));
    forall k | 0 <= k < 32 ensures B.Bit(r, k) == (B.Bit(X(s, p), k) || B.Bit(X(s, q), k)) {
      BitOpBit(Or(d, p, q), X(s, p), X(s, q), k);
    }
  }

  lemma XorSteps(lines: seq<Line>, s: State, x: Operand, y: Operand, z: Operand, d: Window, p: Window, q: Window)
    returns (r: u32)
    requires On(lines, s, "xor", [x, y, z]) && Names(x, d) && Names(y, p) && Names(z, q)
    ensures StepLine(lines, s) == Wrote(s, d, r)
    ensures forall k :: 0 <= k < 32 ==> B.Bit(r, k) == (B.Bit(X(s, p), k) != B.Bit(X(s, q), k))
  {
    hide On, Names, StepLine, Wrote, X, Read, BitOp, B.Bit;
    Reads(s, p);
    Reads(s, q);
    ThreeStep(lines, s, "xor", x, y, z, d, p, q, Xor(d, p, q));
    r := BitOp(Xor(d, p, q), X(s, p), X(s, q));
    forall k | 0 <= k < 32 ensures B.Bit(r, k) == (B.Bit(X(s, p), k) != B.Bit(X(s, q), k)) {
      BitOpBit(Xor(d, p, q), X(s, p), X(s, q), k);
    }
  }

  lemma AndiSteps(lines: seq<Line>, s: State, x: Operand, y: Operand, z: Operand, d: Window, p: Window, v: i64)
    returns (r: u32)
    requires On(lines, s, "andi", [x, y, z]) && Names(x, d) && Names(y, p) && Worth(lines, z, v)
    ensures StepLine(lines, s) == if -1024 <= v <= 1023 then Wrote(s, d, r) else NoMeaning(s)
    ensures forall k :: 0 <= k < 32 ==> B.Bit(r, k) == (B.Bit(X(s, p), k) && B.Bit(v % 0x1_0000_0000, k))
  {
    hide On, Names, Worth, StepLine, Wrote, NoMeaning, X, Read, BitOp, B.Bit, Sext11, Pattern11;
    Reads(s, p);
    var i := Andi(d, p, Pattern11(v));
    ImmStep(lines, s, "andi", x, y, z, d, p, v, i);
    r := BitOp(i, X(s, p), Wrap(v));
    if -1024 <= v <= 1023 {
      Sext11Pattern(v);
    }
    forall k | 0 <= k < 32 ensures B.Bit(r, k) == (B.Bit(X(s, p), k) && B.Bit(v % 0x1_0000_0000, k)) {
      BitOpBit(i, X(s, p), Wrap(v), k);
    }
  }

  lemma OriSteps(lines: seq<Line>, s: State, x: Operand, y: Operand, z: Operand, d: Window, p: Window, v: i64)
    returns (r: u32)
    requires On(lines, s, "ori", [x, y, z]) && Names(x, d) && Names(y, p) && Worth(lines, z, v)
    ensures StepLine(lines, s) == if -1024 <= v <= 1023 then Wrote(s, d, r) else NoMeaning(s)
    ensures forall k :: 0 <= k < 32 ==> B.Bit(r, k) == (B.Bit(X(s, p), k) || B.Bit(v % 0x1_0000_0000, k))
  {
    hide On, Names, Worth, StepLine, Wrote, NoMeaning, X, Read, BitOp, B.Bit, Sext11, Pattern11;
    Reads(s, p);
    var i := Ori(d, p, Pattern11(v));
    ImmStep(lines, s, "ori", x, y, z, d, p, v, i);
    r := BitOp(i, X(s, p), Wrap(v));
    if -1024 <= v <= 1023 {
      Sext11Pattern(v);
    }
    forall k | 0 <= k < 32 ensures B.Bit(r, k) == (B.Bit(X(s, p), k) || B.Bit(v % 0x1_0000_0000, k)) {
      BitOpBit(i, X(s, p), Wrap(v), k);
    }
  }

  lemma XoriSteps(lines: seq<Line>, s: State, x: Operand, y: Operand, z: Operand, d: Window, p: Window, v: i64)
    returns (r: u32)
    requires On(lines, s, "xori", [x, y, z]) && Names(x, d) && Names(y, p) && Worth(lines, z, v)
    ensures StepLine(lines, s) == if -1024 <= v <= 1023 then Wrote(s, d, r) else NoMeaning(s)
    ensures forall k :: 0 <= k < 32 ==> B.Bit(r, k) == (B.Bit(X(s, p), k) != B.Bit(v % 0x1_0000_0000, k))
  {
    hide On, Names, Worth, StepLine, Wrote, NoMeaning, X, Read, BitOp, B.Bit, Sext11, Pattern11;
    Reads(s, p);
    var i := Xori(d, p, Pattern11(v));
    ImmStep(lines, s, "xori", x, y, z, d, p, v, i);
    r := BitOp(i, X(s, p), Wrap(v));
    if -1024 <= v <= 1023 {
      Sext11Pattern(v);
    }
    forall k | 0 <= k < 32 ensures B.Bit(r, k) == (B.Bit(X(s, p), k) != B.Bit(v % 0x1_0000_0000, k)) {
      BitOpBit(i, X(s, p), Wrap(v), k);
    }
  }

  lemma ShiftInstr(m: Mnemonic, a: seq<Actual>, op: ShiftOp)
    requires (m, op) in [(MSll, Sll), (MSrl, Srl), (MSra, Sra)]
    ensures ResolveOp(m, a) == match ShiftBy(a, op) case Ok(i) => Ok(Plain(i)) case Err(e) => Err(e)
  {
    hide ThreeRegs, RegRegImm, ShiftBy, ResolveMove, NoOperands, ResolveBus;
  }

  lemma ShiftStep(lines: seq<Line>, s: State, mnemonic: string, x: Operand, y: Operand, z: Operand,
                  d: Window, p: Window, v: i64, op: ShiftOp)
    requires On(lines, s, mnemonic, [x, y, z]) && Names(x, d) && Names(y, p) && Worth(lines, z, v)
    requires (MnemonicOf(mnemonic), op) in [(MSll, Sll), (MSrl, Srl), (MSra, Sra)]
    ensures StepLine(lines, s) == if 0 <= v <= 31 then Wrote(s, d, ShiftValue(op, X(s, p), v)) else NoMeaning(s)
  {
    hide On, Names, Worth, MnemonicOf, ResolveOp, ShiftBy, ResolveImm, StepLine, Equs, Wrote, NoMeaning, X, Read,
         ShiftValue;
    var a := Args([x, y, z], Equs(lines));
    WorthResolves(lines, z, v);
    ImmOps(a, x, y, d, p, v);
    ShiftInstr(MnemonicOf(mnemonic), a, op);
    Reads(s, p);
    if 0 <= v <= 31 {
      DataStep(lines, s, mnemonic, [x, y, z], Shift(d, p, op, v), d);
    } else {
      BadStep(lines, s, mnemonic, [x, y, z]);
    }
  }

  /** Zeros come in below. */
  lemma SllSteps(lines: seq<Line>, s: State, x: Operand, y: Operand, z: Operand, d: Window, p: Window, v: i64)
    returns (r: u32)
    requires On(lines, s, "sll", [x, y, z]) && Names(x, d) && Names(y, p) && Worth(lines, z, v)
    ensures StepLine(lines, s) == if 0 <= v <= 31 then Wrote(s, d, r) else NoMeaning(s)
    ensures 0 <= v ==> forall k :: 0 <= k < 32 ==> (B.Bit(r, k) <==> v <= k && B.Bit(X(s, p), k - v))
  {
    hide On, Names, Worth, StepLine, Wrote, NoMeaning, X, B.Bit;
    ShiftStep(lines, s, "sll", x, y, z, d, p, v, Sll);
    r := 0;
    if 0 <= v {
      r := B.ShiftLeft(X(s, p), v);
      forall k | 0 <= k < 32 ensures B.Bit(r, k) <==> v <= k && B.Bit(X(s, p), k - v) {
        B.LeftBit(X(s, p), v, k);
      }
    }
  }

  /** Zeros come in above. */
  lemma SrlSteps(lines: seq<Line>, s: State, x: Operand, y: Operand, z: Operand, d: Window, p: Window, v: i64)
    returns (r: u32)
    requires On(lines, s, "srl", [x, y, z]) && Names(x, d) && Names(y, p) && Worth(lines, z, v)
    ensures StepLine(lines, s) == if 0 <= v <= 31 then Wrote(s, d, r) else NoMeaning(s)
    ensures 0 <= v ==> forall k :: 0 <= k < 32 ==> (B.Bit(r, k) <==> B.Bit(X(s, p), k + v))
  {
    hide On, Names, Worth, StepLine, Wrote, NoMeaning, X, B.Bit;
    ShiftStep(lines, s, "srl", x, y, z, d, p, v, Srl);
    r := 0;
    if 0 <= v {
      r := B.ShiftRight(X(s, p), v);
      forall k | 0 <= k < 32 ensures B.Bit(r, k) <==> B.Bit(X(s, p), k + v) {
        B.RightBit(X(s, p), v, k);
      }
    }
  }

  /** The sign comes in above. */
  lemma SraSteps(lines: seq<Line>, s: State, x: Operand, y: Operand, z: Operand, d: Window, p: Window, v: i64)
    returns (r: u32)
    requires On(lines, s, "sra", [x, y, z]) && Names(x, d) && Names(y, p) && Worth(lines, z, v)
    ensures StepLine(lines, s) == if 0 <= v <= 31 then Wrote(s, d, r) else NoMeaning(s)
    ensures 0 <= v ==> forall k :: 0 <= k < 32 ==> (B.Bit(r, k) <==> B.Bit(X(s, p), if k + v < 31 then k + v else 31))
  {
    hide On, Names, Worth, StepLine, Wrote, NoMeaning, X, B.Bit;
    ShiftStep(lines, s, "sra", x, y, z, d, p, v, Sra);
    r := 0;
    if 0 <= v {
      r := B.ShiftSigned(X(s, p), v);
      forall k | 0 <= k < 32 ensures B.Bit(r, k) <==> B.Bit(X(s, p), if k + v < 31 then k + v else 31) {
        B.SignedBit(X(s, p), v, k);
      }
    }
  }
}
