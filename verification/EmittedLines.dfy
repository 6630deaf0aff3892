/** What each line the compiler writes means to the assembler. */
module EmittedLines {
  import opened Prelude
  import opened Text
  import opened Isa
  import opened Machine
  import opened Asm
  import opened Encoder
  import opened Emit

  // ----- spellings -----

  lemma PutByteName()
    ensures MnemonicOf("put_byte") == MPutByte
  {
  }

  lemma GetByteName()
    ensures MnemonicOf("get_byte") == MGetByte
  {
  }

  lemma HaltName()
    ensures MnemonicOf("halt") == MHalt
  {
  }

  lemma CsAssertName()
    ensures MnemonicOf("cs_assert") == MCsAssert
  {
  }

  lemma CsDeassertName()
    ensures MnemonicOf("cs_deassert") == MCsDeassert
  {
  }

  lemma CrcResetName()
    ensures MnemonicOf("crc_reset") == MCrcReset
  {
  }

  lemma RdsrName()
    ensures MnemonicOf("rdsr") == MRdsr
  {
  }

  lemma LiName()
    ensures MnemonicOf("li") == MLi
  {
  }

  lemma BeqName()
    ensures MnemonicOf("beq") == MBeq
  {
  }

  lemma BnezName()
    ensures MnemonicOf("bnez") == MBnez
  {
  }

  lemma ConfigName()
    ensures MnemonicOf("set_config") == MSetConfig
  {
  }

  // ----- lines -----

  /** The assembler has a meaning for the line, addresses apart. */
  predicate Resolves(line: Line) { line.Op? ==> Resolve(line.mnemonic, line.operands, map[]).Ok? }

  lemma RegResolves(n: nat)
    requires n < 16
    ensures ResolveReg(Emit.Reg(n)) == Ok(n)
    ensures RegNumber(RegName(n)) == Some(n)
  {
    var name := RegName(n);
    assert name[0] == 'x' && name[1..] == Dec(n);
    DecMagnitude(n);
  }

  lemma PutResolves(b: byte)
    ensures Resolve("put_byte", [Num(b)], map[]) == Ok(Plain(PutByteImm(b)))
  {
    hide ResolveMixed, ResolveConfig, MnemonicOf;
    PutByteName();
  }

  lemma GetResolves(reg: nat)
    requires reg < 16
    ensures Resolve("get_byte", [Emit.Reg(reg)], map[]) == Ok(Plain(GetByte(reg)))
  {
    hide ResolveReg, MnemonicOf;
    RegResolves(reg);
    GetByteName();
  }

  lemma HaltResolves(code: i64)
    ensures Resolve("halt", [Num(code)], map[])
         == if 0 <= code <= 255 then Ok(Plain(Halt(code))) else Err(BadLine)
  {
    hide MnemonicOf;
    HaltName();
  }

  lemma PinsResolve()
    ensures Resolve("cs_assert", [], map[]) == Ok(Plain(CsAssert))
    ensures Resolve("cs_deassert", [], map[]) == Ok(Plain(CsDeassert))
    ensures Resolve("crc_reset", [], map[]) == Ok(Plain(CrcReset))
  {
    hide MnemonicOf, ResolveOp;
    CsAssertName();
    CsDeassertName();
    CrcResetName();
    assert Args([], map[]) == [];
    PinsAlone();
  }

  lemma PinsAlone()
    ensures ResolveOp(MCsAssert, []) == Ok(Plain(CsAssert))
    ensures ResolveOp(MCsDeassert, []) == Ok(Plain(CsDeassert))
    ensures ResolveOp(MCrcReset, []) == Ok(Plain(CrcReset))
  {
  }

  lemma CrcSpelling()
    ensures LowerCase("crc") == "crc"
  {
    assert LowerCase("c") == "c";
    assert "rc"[1..] == "c" && "crc"[1..] == "rc";
    assert LowerCase("rc") == "rc";
  }

  lemma RdsrResolves(reg: nat)
    requires reg < 16
    ensures Resolve("rdsr", [Emit.Reg(reg), Ident("crc")], map[]) == Ok(Plain(Rdsr(reg, 0)))
  {
    hide ResolveReg, MnemonicOf, LowerCase;
    RegResolves(reg);
    RdsrName();
    CrcSpelling();
  }

  lemma LiResolves(reg: nat, v: u32)
    requires reg < 16
    ensures Resolve("li", [Emit.Reg(reg), Num(v)], map[]) == Ok(LoadConst(reg, v))
  {
    hide ResolveReg, MnemonicOf;
    RegResolves(reg);
    LiName();
  }

  lemma BeqResolves(a: nat, b: nat, target: string)
    requires a < 16 && b < 16
    ensures Resolve("beq", [Emit.Reg(a), Emit.Reg(b), Ident(target)], map[]) == Ok(Jump(Equal, a, b, target))
  {
    hide ResolveReg, MnemonicOf;
    RegResolves(a);
    RegResolves(b);
    BeqName();
  }

  lemma BnezResolves(a: nat, target: string)
    requires a < 16
    ensures Resolve("bnez", [Emit.Reg(a), Ident(target)], map[]) == Ok(Jump(NotEqual, a, 0, target))
  {
    hide ResolveReg, MnemonicOf;
    RegResolves(a);
    BnezName();
  }
}
