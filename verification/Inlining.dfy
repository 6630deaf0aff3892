/** A constant is as good as its number. */
module Inlining {
  import opened Prelude
  import opened Text
  import opened Isa
  import opened Machine
  import opened Asm
  import opened Encoder
  import opened Assembler
  import opened Operands
  import opened EmittedLines

  const KEYWORDS: seq<string> := ["crc", "controller", "x1", "sck20", "alert_pin", "alert_io1"]

  /** A word that is a register, or in some case a keyword, is read as that first. */
  predicate Reserved(name: string) { RegNumber(name).Some? || LowerCase(name) in KEYWORDS }

  /** Operands worth the same, that are one operand or a constant's name and its number. */
  predicate Alike(a: Actual, b: Actual) {
    a == b || (a.imm == b.imm && a.imm.Ok? && a.op.Ident? && !Reserved(a.op.name) && b.op.Num?)
  }

  predicate AllAlike(a: seq<Actual>, b: seq<Actual>) {
    |a| == |b| && forall k :: 0 <= k < |a| ==> Alike(a[k], b[k])
  }

  lemma SameRegister(a: Actual, b: Actual)
    requires Alike(a, b)
    ensures ResolveReg(a.op) == ResolveReg(b.op) && IsRegister(a.op) == IsRegister(b.op) && a.imm == b.imm
  {
    hide RegNumber, LowerCase;
  }

  lemma SameKeyword(a: Actual, b: Actual)
    requires Alike(a, b)
    ensures forall k :: 0 <= k < |KEYWORDS| ==> (Keyword(a) == KEYWORDS[k] <==> Keyword(b) == KEYWORDS[k])
  {
    hide RegNumber, LowerCase;
  }

  lemma SameSr(a: Actual, b: Actual)
    requires Alike(a, b)
    ensures ResolveSr(a) == ResolveSr(b)
  {
    hide RegNumber, LowerCase;
    if a != b {
      assert KEYWORDS[0] == "crc";
    }
  }

  lemma SameConfig(a: seq<Actual>, b: seq<Actual>)
    requires AllAlike(a, b)
    ensures ResolveConfig(a) == ResolveConfig(b)
  {
    hide ResolveConfig, Keyword, Alike;
    ConfigIs(a);
    ConfigIs(b);
    if |a| == 4 {
      SameKeyword(a[0], b[0]);
      SameKeyword(a[1], b[1]);
      SameKeyword(a[2], b[2]);
      SameKeyword(a[3], b[3]);
      assert KEYWORDS[1] == "controller" && KEYWORDS[2] == "x1" && KEYWORDS[3] == "sck20";
      assert KEYWORDS[4] == "alert_pin" && KEYWORDS[5] == "alert_io1";
    }
  }

  lemma AllSame(a: seq<Actual>, b: seq<Actual>)
    requires AllAlike(a, b)
    ensures forall k :: 0 <= k < |a| ==>
              ResolveReg(a[k].op) == ResolveReg(b[k].op) && IsRegister(a[k].op) == IsRegister(b[k].op)
              && a[k].imm == b[k].imm && ResolveSr(a[k]) == ResolveSr(b[k])
  {
    hide ResolveReg, IsRegister, ResolveSr, Alike;
    forall k | 0 <= k < |a|
      ensures ResolveReg(a[k].op) == ResolveReg(b[k].op) && IsRegister(a[k].op) == IsRegister(b[k].op)
              && a[k].imm == b[k].imm && ResolveSr(a[k]) == ResolveSr(b[k])
    {
      SameRegister(a[k], b[k]);
      SameSr(a[k], b[k]);
    }
  }

  lemma SameMixed(m: Mnemonic, a: seq<Actual>, b: seq<Actual>)
    requires AllAlike(a, b)
    ensures ResolveMixed(m, a) == ResolveMixed(m, b)
  {
    AllSame(a, b);
    SameLength(a, b);
    hide ResolveReg, IsRegister, ResolveSr, AllAlike;
  }

  lemma SameLength(a: seq<Actual>, b: seq<Actual>)
    requires AllAlike(a, b)
    ensures |a| == |b|
  {
    hide Alike;
  }

  lemma SameBus(m: Mnemonic, a: seq<Actual>, b: seq<Actual>)
    requires AllAlike(a, b)
    ensures ResolveBus(m, a) == ResolveBus(m, b)
  {
    AllSame(a, b);
    SameLength(a, b);
    SameMixed(m, a, b);
    SameConfig(a, b);
    hide ResolveReg, IsRegister, ResolveSr, AllAlike, ResolveMixed, ResolveConfig;
  }

  lemma SamePlain(m: Mnemonic, a: seq<Actual>, b: seq<Actual>)
    requires AllAlike(a, b)
    ensures ResolvePlain(m, a) == ResolvePlain(m, b)
  {
    AllSame(a, b);
    SameLength(a, b);
    SameBus(m, a, b);
    hide ResolveReg, IsRegister, ResolveSr, AllAlike, ResolveBus;
  }

  lemma SameLi(a: seq<Actual>, b: seq<Actual>)
    requires AllAlike(a, b)
    ensures ResolveOp(MLi, a) == ResolveOp(MLi, b)
  {
    AllSame(a, b);
    SameLength(a, b);
    hide ResolveReg, IsRegister, ResolveSr, AllAlike;
  }

  // ----- one line -----

  /** `op`, or the number of the constant it names. */
  predicate Stands(op: Operand, op': Operand, syms: Symbols) {
    || op' == op
    || (op.Ident? && !Reserved(op.name) && op.name in syms && syms[op.name].Equ? && op' == Num(syms[op.name].v))
  }

  predicate AllStand(ops: seq<Operand>, ops': seq<Operand>, syms: Symbols) {
    |ops| == |ops'| && forall k :: 0 <= k < |ops| ==> Stands(ops[k], ops'[k], syms)
  }

  lemma StandsAlike(ops: seq<Operand>, ops': seq<Operand>, syms: Symbols)
    requires AllStand(ops, ops', syms)
    ensures AllAlike(Args(ops, syms), Args(ops', syms))
  {
    hide Reserved;
    var a, b := Args(ops, syms), Args(ops', syms);
    forall k | 0 <= k < |a| ensures Alike(a[k], b[k]) {
      assert Stands(ops[k], ops'[k], syms);
    }
  }

  /** What is left to do for a resolved line. */
  function Placed(r: Resolved, addr: u16, syms: Symbols): Result<seq<Instr>, AsmError> {
    match r
    case Err(e) => Err(e)
    case Ok(Plain(i)) => Ok([i])
    case Ok(LoadConst(rd, v)) => Ok(TileLi(rd, v))
    case Ok(Jump(op, a, b, target)) =>
      match BranchOffset(target, addr, syms)
      case Err(e) => Err(e)
      case Ok(off) => Ok([BranchInstr(op, a, b, off)])
  }

  lemma EncodeIsPlaced(mnemonic: string, ops: seq<Operand>, addr: u16, syms: Symbols)
    ensures EncodeLine(mnemonic, ops, addr, syms)
         == Placed(ResolveOp(MnemonicOf(mnemonic), Args(ops, syms)), addr, syms)
  {
    hide ResolveOp, MnemonicOf, BranchOffset, TileLi;
  }

  /** A constant is no branch target, and neither is its number. */
  lemma SameBranch(op: BranchOp, a: seq<Actual>, b: seq<Actual>, addr: u16, syms: Symbols)
    requires AllAlike(a, b)
    requires forall k :: 0 <= k < |a| && a[k] != b[k] ==> a[k].op.name in syms && syms[a[k].op.name].Equ?
    ensures Placed(BranchTo(a, op), addr, syms) == Placed(BranchTo(b, op), addr, syms)
    ensures Placed(BranchZero(a, op), addr, syms) == Placed(BranchZero(b, op), addr, syms)
    ensures Placed(ResolveJump(MJ, a), addr, syms) == Placed(ResolveJump(MJ, b), addr, syms)
  {
    AllSame(a, b);
    hide RegNumber, LowerCase;
  }

  lemma SameJump(m: Mnemonic, a: seq<Actual>, b: seq<Actual>, addr: u16, syms: Symbols)
    requires JumpMnemonic(m) && AllAlike(a, b)
    requires forall k :: 0 <= k < |a| && a[k] != b[k] ==> a[k].op.name in syms && syms[a[k].op.name].Equ?
    ensures Placed(ResolveOp(m, a), addr, syms) == Placed(ResolveOp(m, b), addr, syms)
  {
    hide AllAlike, Placed, BranchTo, BranchZero;
    SameBranch(Equal, a, b, addr, syms);
    SameBranch(NotEqual, a, b, addr, syms);
    SameBranch(Below, a, b, addr, syms);
    SameBranch(NotBelow, a, b, addr, syms);
  }

  lemma SameOp(m: Mnemonic, a: seq<Actual>, b: seq<Actual>, addr: u16, syms: Symbols)
    requires AllAlike(a, b)
    requires forall k :: 0 <= k < |a| && a[k] != b[k] ==> a[k].op.name in syms && syms[a[k].op.name].Equ?
    ensures Placed(ResolveOp(m, a), addr, syms) == Placed(ResolveOp(m, b), addr, syms)
  {
    if JumpMnemonic(m) {
      hide *;
      SameJump(m, a, b, addr, syms);
    } else if m.MLi? {
      SameLi(a, b);
    } else {
      hide AllAlike, Placed, ResolvePlain;
      SamePlain(m, a, b);
    }
  }

  lemma LineStands(mnemonic: string, ops: seq<Operand>, ops': seq<Operand>, addr: u16, syms: Symbols)
    requires AllStand(ops, ops', syms)
    ensures EncodeLine(mnemonic, ops', addr, syms) == EncodeLine(mnemonic, ops, addr, syms)
    ensures WordCount(mnemonic, ops', syms) == WordCount(mnemonic, ops, syms)
  {
    var a, b := Args(ops, syms), Args(ops', syms);
    StandsAlike(ops, ops', syms);
    AllSame(a, b);
    forall k | 0 <= k < |a| && a[k] != b[k] ensures a[k].op.name in syms && syms[a[k].op.name].Equ? {
      assert Stands(ops[k], ops'[k], syms);
    }
    hide AllAlike, AllStand, Stands, Placed, EncodeLine, ResolveOp, MnemonicOf, TileLi, Args;
    SameOp(MnemonicOf(mnemonic), a, b, addr, syms);
    EncodeIsPlaced(mnemonic, ops, addr, syms);
    EncodeIsPlaced(mnemonic, ops', addr, syms);
  }

  // ----- whole programs -----

  function Inlined(op: Operand, syms: Symbols): Operand {
    if op.Ident? && op.name in syms && syms[op.name].Equ? && !Reserved(op.name) then Num(syms[op.name].v) else op
  }

  function InlinedAll(ops: seq<Operand>, syms: Symbols): (r: seq<Operand>)
    ensures |r| == |ops| && forall k :: 0 <= k < |ops| ==> r[k] == Inlined(ops[k], syms)
  {
    if ops == [] then [] else [Inlined(ops[0], syms)] + InlinedAll(ops[1..], syms)
  }

  function InlinedLine(line: Line, syms: Symbols): Line {
    if line.Op? then Op(line.mnemonic, InlinedAll(line.operands, syms)) else line
  }

  /** The program with every constant an instruction names replaced by its number, reserved words apart. */
  function InlinedLines(lines: seq<Line>, syms: Symbols): (r: seq<Line>)
    ensures |r| == |lines| && forall k :: 0 <= k < |lines| ==> r[k] == InlinedLine(lines[k], syms)
  {
    if lines == [] then [] else [InlinedLine(lines[0], syms)] + InlinedLines(lines[1..], syms)
  }

  lemma InlinedStands(ops: seq<Operand>, equs: Symbols, syms: Symbols)
    requires AddsLabels(equs, syms)
    ensures AllStand(ops, InlinedAll(ops, equs), syms)
  {
    hide Reserved;
  }

  lemma {:induction false} SameEquPass(lines: seq<Line>, syms: Symbols, n: nat)
    requires n <= |lines|
    ensures EquPass(InlinedLines(lines, syms), n) == EquPass(lines, n)
  {
    hide InlinedLines, Inlined, EquStep, InlinedAll;
    if n > 0 {
      SameEquPass(lines, syms, n - 1);
      NotEqu(EquPass(lines, n - 1), lines[n - 1], syms);
    }
  }

  lemma NotEqu(st: EquState, line: Line, syms: Symbols)
    ensures EquStep(st, InlinedLine(line, syms)) == EquStep(st, line)
  {
    hide InlinedAll, Inlined;
  }

  lemma {:induction false} SameAddrPass(lines: seq<Line>, equs: Symbols, n: nat)
    requires n <= |lines|
    ensures AddrPass(InlinedLines(lines, equs), equs, n) == AddrPass(lines, equs, n)
  {
    hide InlinedLines, InlinedAll, Inlined, WordCount, AddsLabels, AllStand;
    if n > 0 {
      SameAddrPass(lines, equs, n - 1);
      var st, line := AddrPass(lines, equs, n - 1), lines[n - 1];
      if line.Op? {
        AddrPassAddsLabels(lines, equs, 0, n - 1);
        InlinedStands(line.operands, equs, st.syms);
        LineStands(line.mnemonic, line.operands, InlinedAll(line.operands, equs), 0, st.syms);
      }
    }
  }

  lemma {:induction false} SameCodePass(lines: seq<Line>, equs: Symbols, syms: Symbols, n: nat)
    requires n <= |lines| && AddsLabels(equs, syms)
    ensures CodePass(InlinedLines(lines, equs), syms, n) == CodePass(lines, syms, n)
  {
    hide InlinedLines, InlinedAll, Inlined, WordCount, AddsLabels, AllStand, EncodeLine, DirectiveOk;
    if n > 0 {
      SameCodePass(lines, equs, syms, n - 1);
      var st, line := CodePass(lines, syms, n - 1), lines[n - 1];
      if line.Op? {
        InlinedStands(line.operands, equs, syms);
        LineStands(line.mnemonic, line.operands, InlinedAll(line.operands, equs), st.addr, syms);
      }
    }
  }

  /** Replacing constants by their numbers changes neither the code nor any diagnostic. */
  lemma ConstantsAreNumbers(lines: seq<Line>)
    ensures Assembly(InlinedLines(lines, Equs(lines))) == Assembly(lines)
  {
    hide InlinedLines, EquPass, AddrPass, CodePass, AddsLabels;
    var equs := Equs(lines);
    SameEquPass(lines, equs, |lines|);
    SameAddrPass(lines, equs, |lines|);
    AddrPassAddsLabels(lines, equs, 0, |lines|);
    StartsWithEqus(lines, equs);
    SameCodePass(lines, equs, AddrPass(lines, equs, |lines|).syms, |lines|);
  }

  lemma StartsWithEqus(lines: seq<Line>, equs: Symbols)
    ensures AddrPass(lines, equs, 0) == AddrState(0, equs, [])
  {
  }

  // ----- which names can be replaced -----

  function Put(op: Operand, name: string, v: i64): Operand { if op == Ident(name) then Num(v) else op }

  function PutAll(ops: seq<Operand>, name: string, v: i64): (r: seq<Operand>)
    ensures |r| == |ops| && forall k :: 0 <= k < |ops| ==> r[k] == Put(ops[k], name, v)
  {
    if ops == [] then [] else [Put(ops[0], name, v)] + PutAll(ops[1..], name, v)
  }

  /** Whatever constant `name` is and wherever an instruction names it, its number would do as well. */
  ghost predicate Replaceable(name: string) {
    forall mnemonic: string, ops: seq<Operand>, v: i64, addr: u16, syms: Symbols ::
      name in syms && syms[name] == Equ(v) ==>
        EncodeLine(mnemonic, PutAll(ops, name, v), addr, syms) == EncodeLine(mnemonic, ops, addr, syms)
  }

  lemma PutStands(ops: seq<Operand>, name: string, v: i64, syms: Symbols)
    requires !Reserved(name) && name in syms && syms[name] == Equ(v)
    ensures AllStand(ops, PutAll(ops, name, v), syms)
  {
    hide Reserved;
  }

  /** `put_byte` puts what the register holds. */
  lemma RegisterTold(name: string, syms: Symbols)
    requires RegNumber(name).Some?
    ensures EncodeLine("put_byte", [Num(0)], 0, syms) == Ok([PutByteImm(0)])
    ensures EncodeLine("put_byte", [Ident(name)], 0, syms) != Ok([PutByteImm(0)])
  {
    hide MnemonicOf, RegNumber, ResolveMixed, ResolveConfig, BranchOffset, TileLi;
    PutByteName();
  }

  /** `rdsr` reads the CRC, whatever number the constant is. */
  lemma SrTold(name: string, syms: Symbols)
    requires LowerCase(name) == "crc"
    ensures EncodeLine("rdsr", [Ident("zero"), Num(1)], 0, syms) == Ok([Rdsr(0, 1)])
    ensures EncodeLine("rdsr", [Ident("zero"), Ident(name)], 0, syms) == Ok([Rdsr(0, 0)])
  {
    hide MnemonicOf, RegNumber, ResolveConfig, BranchOffset, TileLi, LowerCase;
    RdsrName();
    RegisterIff("zero", 0);
  }

  lemma ConfigLine(ops: seq<Operand>, syms: Symbols)
    ensures EncodeLine("set_config", ops, 0, syms)
         == match ConfigOf(Args(ops, syms)) case Some(p) => Ok([SetConfig(p)]) case None => Err(BadLine)
  {
    hide MnemonicOf, ResolveConfig, BranchOffset, TileLi, ConfigOf, Args;
    ConfigName();
    ConfigIs(Args(ops, syms));
  }

  const CONFIG_WORDS: seq<string> := ["controller", "x1", "sck20", "alert_pin"]

  /** The four words, with `name` in place of the one it spells in some other case. */
  function ConfigWith(name: string): (ops: seq<Operand>)
    ensures |ops| == 4
  {
    var lower := LowerCase(name);
    [Ident(if lower == "controller" then name else "controller"), Ident(if lower == "x1" then name else "x1"),
     Ident(if lower == "sck20" then name else "sck20"),
     Ident(if lower == "alert_pin" || lower == "alert_io1" then name else "alert_pin")]
  }

  lemma ConfigTold(name: string, v: i64, syms: Symbols)
    requires LowerCase(name) in KEYWORDS && LowerCase(name) != "crc"
    ensures EncodeLine("set_config", ConfigWith(name), 0, syms).Ok?
    ensures EncodeLine("set_config", PutAll(ConfigWith(name), name, v), 0, syms).Err?
  {
    hide EncodeLine, LowerCase;
    AlreadyLower("controller");
    AlreadyLower("x1");
    AlreadyLower("sck20");
    AlreadyLower("alert_pin");
    ConfigLine(ConfigWith(name), syms);
    ConfigLine(PutAll(ConfigWith(name), name, v), syms);
  }

  /** A line that tells a reserved word from its number. */
  lemma Told(name: string) returns (mnemonic: string, ops: seq<Operand>, v: i64)
    requires Reserved(name)
    ensures EncodeLine(mnemonic, PutAll(ops, name, v), 0, map[name := Equ(v)])
         != EncodeLine(mnemonic, ops, 0, map[name := Equ(v)])
  {
    hide EncodeLine, RegNumber, LowerCase, ConfigWith;
    if RegNumber(name).Some? {
      mnemonic, ops, v := "put_byte", [Ident(name)], 0;
      assert PutAll(ops, name, v) == [Num(0)];
      RegisterTold(name, map[name := Equ(v)]);
    } else if LowerCase(name) == "crc" {
      mnemonic, ops, v := "rdsr", [Ident("zero"), Ident(name)], 1;
      RegisterIff("zero", 0);
      assert PutAll(ops, name, v) == [Ident("zero"), Num(1)];
      SrTold(name, map[name := Equ(v)]);
    } else {
      mnemonic, ops, v := "set_config", ConfigWith(name), 0;
      ConfigTold(name, v, map[name := Equ(v)]);
    }
  }

  /**
   * A constant's name can be replaced by its number wherever instructions name it exactly when the
   * name is neither a register nor, in any case, a keyword a supported instruction reads.
   */
  lemma ReplaceableIff(name: string)
    ensures Replaceable(name) <==> !Reserved(name)
  {
    hide EncodeLine, Reserved, AllStand;
    if Reserved(name) {
      var mnemonic, ops, v := Told(name);
      var syms := map[name := Equ(v)];
      assert name in syms && syms[name] == Equ(v);
    } else {
      forall mnemonic: string, ops: seq<Operand>, v: i64, addr: u16, syms: Symbols |
        name in syms && syms[name] == Equ(v)
        ensures EncodeLine(mnemonic, PutAll(ops, name, v), addr, syms) == EncodeLine(mnemonic, ops, addr, syms)
      {
        PutStands(ops, name, v, syms);
        LineStands(mnemonic, ops, PutAll(ops, name, v), addr, syms);
      }
    }
  }
}
