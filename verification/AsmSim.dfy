/** The label form of a program, run line by line. */
module LabelMachine {
  import opened Prelude
  import opened Isa
  import opened Machine
  import opened Asm
  import opened Encoder
  import opened Assembler

  /** The first line from `from` on that defines `name`, or the end of the program. */
  function FindLabel(lines: seq<Line>, name: string, from: nat): (k: nat)
    requires from <= |lines|
    ensures from <= k <= |lines|
    ensures k < |lines| ==> lines[k] == Label(name)
    ensures forall j :: from <= j < k ==> lines[j] != Label(name)
    decreases |lines| - from
  {
    if from == |lines| || lines[from] == Label(name) then from else FindLabel(lines, name, from + 1)
  }

  function ExecMeaning(lines: seq<Line>, s: State, m: Meaning): State {
    match m
    case Plain(i) => if IsBranch(i) then s.(status := Undefined) else After(s, Exec(i, s.regs, s.dev))
    case LoadConst(rd, v) => s.(pc := s.pc + 1, regs := Write(s.regs, rd, v))
    case Jump(op, a, b, target) =>
      s.(pc := if Taken(op, Read(s.regs, a), Read(s.regs, b)) then FindLabel(lines, target, 0) else s.pc + 1)
  }

  function StepLine(lines: seq<Line>, s: State): State {
    if s.status != Running then s
    else if !(0 <= s.pc < |lines|) then s.(status := OffEnd)
    else
      match lines[s.pc]
      case Label(_) => s.(pc := s.pc + 1)
      case Directive(_, _) => s.(pc := s.pc + 1)
      case Op(mnemonic, operands) =>
        match Resolve(mnemonic, operands, Equs(lines))
        case Ok(m) => ExecMeaning(lines, s, m)
        case Err(_) => s.(status := Undefined)
  }

  function RunLines(lines: seq<Line>, n: nat, s: State): State {
    if n == 0 then s else RunLines(lines, n - 1, StepLine(lines, s))
  }

  lemma {:induction false} RunLinesAdds(lines: seq<Line>, a: nat, b: nat, s: State)
    ensures RunLines(lines, a + b, s) == RunLines(lines, b, RunLines(lines, a, s))
  {
    if a > 0 {
      RunLinesAdds(lines, a - 1, b, StepLine(lines, s));
    }
  }

  lemma {:induction false} StoppedStays(lines: seq<Line>, n: nat, s: State)
    requires s.status != Running
    ensures RunLines(lines, n, s) == s
  {
    if n > 0 {
      StoppedStays(lines, n - 1, s);
    }
  }
}

/** `li` tiling leaves exactly its constant in the register. */
module Tiling {
  import opened Prelude
  import opened Isa
  import opened Machine
  import opened Encoder

  predicate OneWord(v: u32) { -0x10_0000 <= Signed(v) < 0x10_0000 || v % 0x800 == 0 }

  lemma Sext21Pattern(v: int)
    requires -0x10_0000 <= v < 0x10_0000
    ensures Sext21(Pattern21(v)) == v
  {
    if v >= 0 {
      assert v % 0x20_0000 == v;
    } else {
      assert v % 0x20_0000 == v + 0x20_0000;
    }
  }

  lemma Sext11Pattern(v: int)
    requires -0x400 <= v < 0x400
    ensures Sext11(Pattern11(v)) == v
  {
    if v >= 0 {
      assert v % 0x800 == v;
    } else {
      assert v % 0x800 == v + 0x800;
    }
  }

  /** The two halves of a tiled constant. */
  function LowPart(v: u32): int { if v % 0x800 >= 0x400 then v % 0x800 - 0x800 else v % 0x800 }

  function HighPart(v: u32): Imm21 { Wrap(v - LowPart(v)) / 0x800 }

  lemma Halves(v: u32)
    ensures HighPart(v) * 0x800 == Wrap(v - LowPart(v))
    ensures Wrap(HighPart(v) * 0x800 + LowPart(v)) == v
    ensures -0x400 <= LowPart(v) < 0x400
    ensures LowPart(v) == 0 <==> v % 0x800 == 0
  {
    var q, r := v / 0x800, v % 0x800;
    assert v == q * 0x800 + r;
    if r < 0x400 {
      assert v - LowPart(v) == q * 0x800;
    } else {
      assert v - LowPart(v) == (q + 1) * 0x800;
    }
  }

  lemma TileShape(rd: Reg, v: u32)
    ensures var t := TileLi(rd, v);
            && (|t| == 1 <==> OneWord(v))
            && (-0x10_0000 <= Signed(v) < 0x10_0000 ==> t == [LoadImm(rd, Pattern21(Signed(v)))])
            && (!(-0x10_0000 <= Signed(v) < 0x10_0000) && v % 0x800 == 0 ==> t == [Lui(rd, HighPart(v))])
            && (!OneWord(v) ==> t == [Lui(rd, HighPart(v)), Addi(rd, rd, Pattern11(LowPart(v)))])
  {
    Halves(v);
  }

  /** The register file after straight-line DATA code. */
  function RunData(code: seq<Instr>, regs: Regs): Regs
    requires forall k :: 0 <= k < |code| ==> IsData(code[k])
  {
    if code == [] then regs else
    var i := code[0];
    assert IsData(i);
    RunData(code[1..], Write(regs, i.rd, DataValue(i, regs)))
  }

  lemma WriteTwice(regs: Regs, r: Reg, x: u32, y: u32)
    ensures Write(Write(regs, r, x), r, y) == Write(regs, r, y)
    ensures r % 16 != 0 ==> Read(Write(regs, r, x), r) == x
  {
  }

  /** One instruction that loads the value. */
  lemma OneLoads(i: Instr, rd: Reg, v: u32, regs: Regs)
    requires IsData(i) && i.rd == rd && DataValue(i, regs) == v
    ensures RunData([i], regs) == Write(regs, rd, v)
  {
    hide DataValue, Write;
    assert [i][1..] == [];
  }

  lemma SmallLoads(rd: Reg, v: u32, regs: Regs)
    requires -0x10_0000 <= Signed(v) < 0x10_0000
    ensures DataValue(LoadImm(rd, Pattern21(Signed(v))), regs) == v
  {
    Sext21Pattern(Signed(v));
  }

  /** A high part, and a low part added to it. */
  lemma TwoLoad(rd: Reg, v: u32, regs: Regs)
    ensures var code := [Lui(rd, HighPart(v)), Addi(rd, rd, Pattern11(LowPart(v)))];
            RunData(code, regs) == Write(regs, rd, v)
  {
    hide LowPart, HighPart, Pattern11, Sext11;
    Halves(v);
    Sext11Pattern(LowPart(v));
    var lui, addi := Lui(rd, HighPart(v)), Addi(rd, rd, Pattern11(LowPart(v)));
    var hi := HighPart(v) * 0x800;
    var regs' := Write(regs, rd, hi);
    assert DataValue(lui, regs) == hi;
    WriteTwice(regs, rd, hi, v);
    assert rd % 16 != 0 ==> DataValue(addi, regs') == v;
    assert [lui, addi][1..] == [addi] && [addi][1..] == [];
    assert RunData([lui, addi], regs) == RunData([addi], regs');
    assert RunData([addi], regs') == RunData([], Write(regs', rd, DataValue(addi, regs')));
  }

  /**
   * For every 32-bit value the tiled code writes exactly that value to `rd` and nothing else, in
   * one word if the value is a signed 21-bit number or a multiple of 2^11, and in two otherwise.
   */
  lemma TileLoads(rd: Reg, v: u32, regs: Regs)
    ensures var t := TileLi(rd, v);
            && (forall k :: 0 <= k < |t| ==> IsData(t[k]))
            && RunData(t, regs) == Write(regs, rd, v)
            && (rd % 16 != 0 ==> Read(RunData(t, regs), rd) == v)
            && |t| == (if OneWord(v) then 1 else 2)
  {
    hide RunData, TileLi, LowPart, HighPart, Pattern11, Pattern21, Signed;
    TileShape(rd, v);
    Halves(v);
    WriteTwice(regs, rd, v, v);
    if -0x10_0000 <= Signed(v) < 0x10_0000 {
      SmallLoads(rd, v, regs);
      OneLoads(LoadImm(rd, Pattern21(Signed(v))), rd, v, regs);
    } else if v % 0x800 == 0 {
      OneLoads(Lui(rd, HighPart(v)), rd, v, regs);
    } else {
      TwoLoad(rd, v, regs);
    }
  }
}
