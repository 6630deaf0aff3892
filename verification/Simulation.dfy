/** Running the assembled words simulates running the lines they came from. */
module Simulation {
  import opened Prelude
  import opened Isa
  import opened Machine
  import opened Asm
  import opened Encoder
  import opened Assembler
  import opened LabelMachine
  import opened Tiling

  /** The word address of line `k`. */
  function AddrOf(lines: seq<Line>, k: nat): nat
    requires k <= |lines|
  {
    AddrPass(lines, Equs(lines), k).addr
  }

  function Syms(lines: seq<Line>): Symbols { AddrPass(lines, Equs(lines), |lines|).syms }

  predicate Assembles(lines: seq<Line>) { Assembly(lines).Ok? }

  function Code(lines: seq<Line>): seq<Instr>
    requires Assembles(lines)
  {
    Assembly(lines).value
  }

  // ----- what success of the assembler gives -----

  lemma {:induction false} CodePassGrows(lines: seq<Line>, syms: Symbols, m: nat, n: nat)
    requires m <= n <= |lines|
    ensures CodePass(lines, syms, m).instrs <= CodePass(lines, syms, n).instrs
    ensures CodePass(lines, syms, m).diags <= CodePass(lines, syms, n).diags
  {
    hide EncodeLine, WordCount;
    if m < n {
      CodePassGrows(lines, syms, m, n - 1);
    }
  }

  lemma NoDiags(lines: seq<Line>, n: nat)
    requires Assembles(lines) && n <= |lines|
    ensures CodePass(lines, Syms(lines), n).diags == []
    ensures AddrPass(lines, Equs(lines), n).diags == []
    ensures AddrOf(lines, n) <= AddrOf(lines, |lines|) <= MAX_WORDS
    ensures CodePass(lines, Syms(lines), n).addr == AddrOf(lines, n)
  {
    hide EncodeLine, WordCount;
    CodePassGrows(lines, Syms(lines), n, |lines|);
    AddrPassAddsLabels(lines, Equs(lines), n, |lines|);
    PassesAgree(lines, Equs(lines), n);
  }

  /** The code of the first n lines ends where line n begins. */
  lemma {:induction false} CodeLength(lines: seq<Line>, n: nat)
    requires Assembles(lines) && n <= |lines|
    ensures |CodePass(lines, Syms(lines), n).instrs| == AddrOf(lines, n)
  {
    hide EncodeLine, WordCount;
    NoDiags(lines, n);
    if n > 0 {
      CodeLength(lines, n - 1);
      NoDiags(lines, n - 1);
      var line := lines[n - 1];
      if line.Op? {
        StepsAgree(lines, Equs(lines), n - 1);
        LineEncodes(lines, n - 1);
        EncodedLength(line.mnemonic, line.operands, AddrOf(lines, n - 1), Syms(lines));
        SameCountAt(lines, n - 1);
      }
    }
  }

  lemma SameCountAt(lines: seq<Line>, k: nat)
    requires k < |lines| && lines[k].Op?
    ensures WordCount(lines[k].mnemonic, lines[k].operands, AddrPass(lines, Equs(lines), k).syms)
         == WordCount(lines[k].mnemonic, lines[k].operands, Syms(lines))
  {
    hide WordCount;
    AddrPassAddsLabels(lines, Equs(lines), k, |lines|);
    AddsLabelsSameEqus(AddrPass(lines, Equs(lines), k).syms, Syms(lines));
    SizedAlike(lines[k].mnemonic, lines[k].operands, AddrPass(lines, Equs(lines), k).syms, Syms(lines));
  }

  lemma LineEncodes(lines: seq<Line>, k: nat)
    requires Assembles(lines) && k < |lines| && lines[k].Op?
    ensures AddrOf(lines, k) < 0x1_0000
    ensures EncodeLine(lines[k].mnemonic, lines[k].operands, AddrOf(lines, k), Syms(lines)).Ok?
    ensures CodePass(lines, Syms(lines), k + 1).instrs
         == CodePass(lines, Syms(lines), k).instrs
            + EncodeLine(lines[k].mnemonic, lines[k].operands, AddrOf(lines, k), Syms(lines)).value
  {
    hide EncodeLine, WordCount;
    NoDiags(lines, k);
    NoDiags(lines, k + 1);
  }

  /** The words at the address of an instruction line are that line's code. */
  lemma CodeAt(lines: seq<Line>, k: nat)
    requires Assembles(lines) && k < |lines| && lines[k].Op?
    ensures AddrOf(lines, k) <= AddrOf(lines, k + 1) <= |Code(lines)| == AddrOf(lines, |lines|) <= MAX_WORDS
    ensures EncodeLine(lines[k].mnemonic, lines[k].operands, AddrOf(lines, k), Syms(lines))
         == Ok(Code(lines)[AddrOf(lines, k)..AddrOf(lines, k + 1)])
  {
    hide EncodeLine, WordCount;
    LineEncodes(lines, k);
    CodeLength(lines, k);
    CodeLength(lines, k + 1);
    CodeLength(lines, |lines|);
    NoDiags(lines, k);
    CodePassGrows(lines, Syms(lines), k + 1, |lines|);
    var before, after := CodePass(lines, Syms(lines), k).instrs, CodePass(lines, Syms(lines), k + 1).instrs;
    assert after <= Code(lines);
    assert Code(lines)[AddrOf(lines, k)..AddrOf(lines, k + 1)] == after[|before|..];
  }

  lemma CodeSize(lines: seq<Line>)
    requires Assembles(lines)
    ensures |Code(lines)| == AddrOf(lines, |lines|) <= MAX_WORDS
  {
    hide EncodeLine, WordCount;
    CodeLength(lines, |lines|);
    NoDiags(lines, |lines|);
  }

  /** Every label in the final table stands on a line, at that line's address. */
  lemma {:induction false} LabelDefined(lines: seq<Line>, name: string, n: nat) returns (k: nat)
    requires n <= |lines|
    requires name in AddrPass(lines, Equs(lines), n).syms && AddrPass(lines, Equs(lines), n).syms[name].LabelAt?
    ensures k < n && lines[k] == Label(name)
    ensures AddrPass(lines, Equs(lines), n).syms[name] == LabelAt(AddrOf(lines, k) % 0x1_0000)
  {
    hide WordCount;
    k := n;
    if n == 0 {
      EqusAreEqus(lines, |lines|);
    } else if name in AddrPass(lines, Equs(lines), n - 1).syms {
      k := LabelDefined(lines, name, n - 1);
    } else {
      k := n - 1;
    }
  }

  lemma {:induction false} EqusAreEqus(lines: seq<Line>, n: nat)
    requires n <= |lines|
    ensures forall name :: name in EquPass(lines, n).syms ==> EquPass(lines, n).syms[name].Equ?
  {
    if n > 0 {
      EqusAreEqus(lines, n - 1);
    }
  }

  /** A label is defined on one line only. */
  lemma LabelUnique(lines: seq<Line>, name: string, j: nat, k: nat)
    requires Assembles(lines) && j < k < |lines|
    requires lines[j] == Label(name)
    ensures lines[k] != Label(name)
  {
    hide WordCount, CodePass, EquPass;
    NoDiags(lines, j + 1);
    NoDiags(lines, k + 1);
    AddrPassAddsLabels(lines, Equs(lines), j + 1, k);
    assert name in AddrPass(lines, Equs(lines), j + 1).syms;
  }

  /** The address a branch resolves to is the address of the line that defines its label. */
  lemma BranchLands(lines: seq<Line>, target: string, addr: u16)
    requires Assembles(lines)
    requires BranchOffset(target, addr, Syms(lines)).Ok?
    ensures addr + Sext11(BranchOffset(target, addr, Syms(lines)).value) == AddrOf(lines, FindLabel(lines, target, 0))
    ensures FindLabel(lines, target, 0) < |lines|
  {
    hide WordCount, CodePass, EquPass;
    var k := LabelDefined(lines, target, |lines|);
    NoDiags(lines, k);
    var j := FindLabel(lines, target, 0);
    if j < k {
      LabelUnique(lines, target, j, k);
    }
    assert j == k;
    var off := Syms(lines)[target].addr - addr;
    Sext11Pattern(off);
  }

  // ----- the simulation -----

  /** The same machine, once between lines and once between words. */
  ghost predicate Matches(lines: seq<Line>, sl: State, sw: State) {
    && sl.regs == sw.regs && sl.dev == sw.dev && sl.status == sw.status
    && (sl.status == Running ==> 0 <= sl.pc <= |lines| && sw.pc == AddrOf(lines, sl.pc))
  }

  lemma EqusSuffice(lines: seq<Line>, mnemonic: string, operands: seq<Operand>)
    ensures Resolve(mnemonic, operands, Equs(lines)) == Resolve(mnemonic, operands, Syms(lines))
  {
    hide ResolveOp, MnemonicOf, EquPass;
    AddrPassAddsLabels(lines, Equs(lines), 0, |lines|);
    AddsLabelsSameEqus(Equs(lines), Syms(lines));
    SameConstants(operands, Equs(lines), Syms(lines));
  }

  /** Executing DATA code placed at `pc`. */
  lemma {:induction false} RunDataWords(words: seq<u32>, code: seq<Instr>, s: State)
    requires forall k :: 0 <= k < |code| ==> IsData(code[k])
    requires s.status == Running && 0 <= s.pc && s.pc + |code| <= |words|
    requires forall k :: 0 <= k < |code| ==> words[s.pc + k] == Encode(code[k])
    ensures RunWords(words, |code|, s) == s.(pc := s.pc + |code|, regs := RunData(code, s.regs))
    decreases |code|
  {
    hide Encode, Decode, DataValue;
    if code != [] {
      var i := code[0];
      assert words[s.pc + 0] == Encode(i);
      EncodeDecode(i, words[s.pc]);
      assert IsData(i);
      var s' := StepWord(words, s);
      assert s' == s.(pc := s.pc + 1, regs := Write(s.regs, i.rd, DataValue(i, s.regs)));
      forall k | 0 <= k < |code[1..]| ensures words[s'.pc + k] == Encode(code[1..][k]) {
        assert words[s.pc + (k + 1)] == Encode(code[k + 1]);
      }
      RunDataWords(words, code[1..], s');
    }
  }

  lemma StepOne(words: seq<u32>, i: Instr, s: State)
    requires s.status == Running && 0 <= s.pc < |words| && words[s.pc] == Encode(i)
    ensures RunWords(words, 1, s) == ExecAt(s, i)
  {
    hide Encode, Decode, ExecAt;
    EncodeDecode(i, words[s.pc]);
    assert RunWords(words, 1, s) == RunWords(words, 0, StepWord(words, s));
  }

  lemma SimulateOp(lines: seq<Line>, sl: State, sw: State) returns (n: nat)
    requires Assembles(lines) && Matches(lines, sl, sw)
    requires sl.status == Running && sl.pc < |lines| && lines[sl.pc].Op?
    ensures Matches(lines, StepLine(lines, sl), RunWords(EncodeAll(Code(lines)), n, sw))
    ensures 1 <= n
  {
    hide ResolveOp, MnemonicOf, EquPass, CodePass, AddrPass, WordCount, TileLi, Exec, Taken, BranchOffset, Encode,
         Decode, Assembly, RunWords, FindLabel, DataValue;
    var k: nat := sl.pc;
    var line := lines[k];
    var words := EncodeAll(Code(lines));
    CodeAt(lines, k);
    EqusSuffice(lines, line.mnemonic, line.operands);
    var code := Code(lines)[AddrOf(lines, k)..AddrOf(lines, k + 1)];
    forall j | 0 <= j < |code| ensures words[sw.pc + j] == Encode(code[j]) {
    }
    match Resolve(line.mnemonic, line.operands, Equs(lines)).value
    case Plain(i) =>
      assert words[sw.pc + 0] == Encode(code[0]);
      StepOne(words, i, sw);
      n := 1;
    case LoadConst(rd, v) =>
      TileLoads(rd, v, sw.regs);
      RunDataWords(words, code, sw);
      n := |code|;
    case Jump(op, a, b, target) =>
      BranchLands(lines, target, AddrOf(lines, k));
      assert words[sw.pc + 0] == Encode(code[0]);
      StepOne(words, code[0], sw);
      n := 1;
  }

  lemma SimulateStep(lines: seq<Line>, sl: State, sw: State) returns (n: nat)
    requires Assembles(lines) && Matches(lines, sl, sw)
    ensures Matches(lines, StepLine(lines, sl), RunWords(EncodeAll(Code(lines)), n, sw))
  {
    hide ResolveOp, MnemonicOf, EquPass, CodePass, WordCount, ExecAt, Decode, ExecMeaning, Assembly;
    if sl.status != Running {
      n := 0;
    } else if sl.pc == |lines| {
      CodeSize(lines);
      n := 1;
      assert RunWords(EncodeAll(Code(lines)), 1, sw) == RunWords(EncodeAll(Code(lines)), 0, StepWord(EncodeAll(Code(lines)), sw));
    } else if lines[sl.pc].Op? {
      n := SimulateOp(lines, sl, sw);
    } else {
      n := 0;
    }
  }

  /**
   * Whenever `lines` assembles, from any matching pair of states, each run of the lines is matched
   * by a run of the words: branches land on the code after their label, and pseudo-operations and
   * `li` mean what the line says.
   */
  lemma {:induction false} Simulate(lines: seq<Line>, m: nat, sl: State, sw: State) returns (n: nat)
    requires Assembles(lines) && Matches(lines, sl, sw)
    ensures Matches(lines, RunLines(lines, m, sl), RunWords(EncodeAll(Code(lines)), n, sw))
    decreases m
  {
    hide StepLine, StepWord, Assembly, AddrPass;
    if m == 0 {
      n := 0;
    } else {
      var a := SimulateStep(lines, sl, sw);
      var words := EncodeAll(Code(lines));
      var b := Simulate(lines, m - 1, StepLine(lines, sl), RunWords(words, a, sw));
      n := a + b;
      RunWordsAdds(words, a, b, sw);
    }
  }
}
