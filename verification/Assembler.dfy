/** The three passes of the assembler. */
module Assembler {
  import opened Prelude
  import opened Isa
  import opened Asm
  import opened Encoder

  const MAX_WORDS := 1024

  // ----- what each pass computes over the first n lines -----

  datatype EquState = EquState(syms: Symbols, diags: seq<AsmError>)

  function EquStep(st: EquState, line: Line): EquState {
    if !(line.Directive? && line.name == "equ") then st
    else if |line.args| != 2 || line.args[0].Num? then st.(diags := st.diags + [BadEqu])
    else
      match ResolveImm(line.args[1], st.syms)
      case Err(e) => st.(diags := st.diags + [e])
      case Ok(v) =>
        var name := line.args[0].name;
        if name in st.syms then st.(diags := st.diags + [DuplicateSymbol])
        else st.(syms := st.syms[name := Equ(v)])
  }

  /** Pass 0: the `.equ` constants. */
  function EquPass(lines: seq<Line>, n: nat): EquState
    requires n <= |lines|
  {
    if n == 0 then EquState(map[], []) else EquStep(EquPass(lines, n - 1), lines[n - 1])
  }

  function Equs(lines: seq<Line>): Symbols { EquPass(lines, |lines|).syms }

  datatype AddrState = AddrState(addr: nat, syms: Symbols, diags: seq<AsmError>)

  function AddrStep(st: AddrState, line: Line): AddrState {
    match line
    case Label(name) =>
      if name in st.syms then st.(diags := st.diags + [DuplicateSymbol])
      else st.(syms := st.syms[name := LabelAt(st.addr % 0x1_0000)])
    case Op(mnemonic, operands) => st.(addr := st.addr + WordCount(mnemonic, operands, st.syms))
    case Directive(_, _) => st
  }

  /** Pass 1: each label gets the address of the next instruction word. */
  function AddrPass(lines: seq<Line>, equs: Symbols, n: nat): AddrState
    requires n <= |lines|
  {
    if n == 0 then AddrState(0, equs, []) else AddrStep(AddrPass(lines, equs, n - 1), lines[n - 1])
  }

  predicate DirectiveOk(name: string, args: seq<Operand>) {
    match name
    case "equ" => true
    case "text" => true
    case "globl" => |args| == 1 && args[0].Ident?
    case _ => false
  }

  datatype CodeState = CodeState(addr: u16, instrs: seq<Instr>, diags: seq<AsmError>)

  function CodeStep(st: CodeState, line: Line, syms: Symbols): CodeState {
    match line
    case Label(_) => st
    case Directive(name, args) =>
      if DirectiveOk(name, args) then st else st.(diags := st.diags + [BadDirective])
    case Op(mnemonic, operands) =>
      match EncodeLine(mnemonic, operands, st.addr, syms)
      case Ok(code) => CodeState((st.addr + |code|) % 0x1_0000, st.instrs + code, st.diags)
      case Err(e) =>
        CodeState((st.addr + WordCount(mnemonic, operands, syms)) % 0x1_0000, st.instrs, st.diags + [e])
  }

  /** Pass 2: the code. */
  function CodePass(lines: seq<Line>, syms: Symbols, n: nat): CodeState
    requires n <= |lines|
  {
    if n == 0 then CodeState(0, [], []) else CodeStep(CodePass(lines, syms, n - 1), lines[n - 1], syms)
  }

  function Assembly(lines: seq<Line>): Result<seq<Instr>, seq<AsmError>> {
    var equs := EquPass(lines, |lines|);
    var addrs := AddrPass(lines, equs.syms, |lines|);
    var code := CodePass(lines, addrs.syms, |lines|);
    var diags := equs.diags + addrs.diags + code.diags + (if addrs.addr > MAX_WORDS then [TooLong] else []);
    if diags == [] then Ok(code.instrs) else Err(diags)
  }

  // ----- the passes as the program runs them -----

  class SymbolTable {
    var entries: Symbols

    constructor ()
      ensures entries == map[]
    {
      entries := map[];
    }

    /** Adds a symbol unless its name is taken. */
    method Insert(name: string, sym: Sym) returns (ok: bool)
      modifies this
      ensures ok <==> name !in old(entries)
      ensures entries == if ok then old(entries)[name := sym] else old(entries)
    {
      ok := name !in entries;
      if ok {
        entries := entries[name := sym];
      }
    }
  }

  method CollectEqus(lines: seq<Line>) returns (table: SymbolTable, diags: seq<AsmError>)
    ensures fresh(table)
    ensures EquState(table.entries, diags) == EquPass(lines, |lines|)
  {
    table := new SymbolTable();
    diags := [];
    for n := 0 to |lines|
      invariant fresh(table)
      invariant EquState(table.entries, diags) == EquPass(lines, n)
    {
      var line := lines[n];
      if line.Directive? && line.name == "equ" {
        if |line.args| != 2 || line.args[0].Num? {
          diags := diags + [BadEqu];
        } else {
          match ResolveImm(line.args[1], table.entries) {
            case Err(e) => diags := diags + [e];
            case Ok(v) =>
              var ok := table.Insert(line.args[0].name, Equ(v));
              if !ok {
                diags := diags + [DuplicateSymbol];
              }
          }
        }
      }
    }
  }

  method AssignAddresses(lines: seq<Line>, table: SymbolTable) returns (addr: nat, diags: seq<AsmError>)
    modifies table
    ensures AddrState(addr, table.entries, diags) == AddrPass(lines, old(table.entries), |lines|)
  {
    addr, diags := 0, [];
    for n := 0 to |lines|
      invariant AddrState(addr, table.entries, diags) == AddrPass(lines, old(table.entries), n)
    {
      match lines[n] {
        case Label(name) =>
          var ok := table.Insert(name, LabelAt(addr % 0x1_0000));
          if !ok {
            diags := diags + [DuplicateSymbol];
          }
        case Op(mnemonic, operands) =>
          addr := addr + WordCount(mnemonic, operands, table.entries);
        case Directive(_, _) =>
      }
    }
  }

  method Assemble(lines: seq<Line>) returns (r: Result<seq<Instr>, seq<AsmError>>)
    ensures r == Assembly(lines)
  {
    hide EncodeLine, WordCount;
    var table, equDiags := CollectEqus(lines);
    var total, addrDiags := AssignAddresses(lines, table);
    var syms := table.entries;
    var instrs: seq<Instr>, codeDiags: seq<AsmError> := [], [];
    var addr: u16 := 0;
    for n := 0 to |lines|
      invariant CodeState(addr, instrs, codeDiags) == CodePass(lines, syms, n)
    {
      match lines[n] {
        case Label(_) =>
        case Directive(name, args) =>
          if !DirectiveOk(name, args) {
            codeDiags := codeDiags + [BadDirective];
          }
        case Op(mnemonic, operands) =>
          match EncodeLine(mnemonic, operands, addr, syms) {
            case Ok(code) =>
              addr := (addr + |code|) % 0x1_0000;
              instrs := instrs + code;
            case Err(e) =>
              addr := (addr + WordCount(mnemonic, operands, syms)) % 0x1_0000;
              codeDiags := codeDiags + [e];
          }
      }
    }
    var diags := equDiags + addrDiags + codeDiags + (if total > MAX_WORDS then [TooLong] else []);
    r := if diags == [] then Ok(instrs) else Err(diags);
  }

  // ----- pass 1 and pass 2 agree -----

  /** Extending a table with labels leaves every constant as it was. */
  ghost predicate AddsLabels(s1: Symbols, s2: Symbols) {
    && (forall name :: name in s1 ==> name in s2 && s2[name] == s1[name])
    && (forall name :: name in s2 && name !in s1 ==> s2[name].LabelAt?)
  }

  lemma AddsLabelsSameEqus(s1: Symbols, s2: Symbols)
    requires AddsLabels(s1, s2)
    ensures SameEqus(s1, s2)
  {
  }

  lemma {:induction false} AddrPassAddsLabels(lines: seq<Line>, equs: Symbols, m: nat, n: nat)
    requires m <= n <= |lines|
    ensures AddsLabels(AddrPass(lines, equs, m).syms, AddrPass(lines, equs, n).syms)
    ensures AddrPass(lines, equs, m).addr <= AddrPass(lines, equs, n).addr
    ensures AddrPass(lines, equs, m).diags <= AddrPass(lines, equs, n).diags
  {
    if m < n {
      AddrPassAddsLabels(lines, equs, m, n - 1);
    }
  }

  lemma WrapAdd(x: nat, k: nat)
    ensures (x % 0x1_0000 + k) % 0x1_0000 == (x + k) % 0x1_0000
  {
  }

  /** Pass 2 moves on by what pass 1 counted for the line, error or not. */
  lemma StepsAgree(lines: seq<Line>, equs: Symbols, n: nat)
    requires n < |lines| && lines[n].Op?
    ensures var syms := AddrPass(lines, equs, |lines|).syms;
            var count := WordCount(lines[n].mnemonic, lines[n].operands, AddrPass(lines, equs, n).syms);
            CodePass(lines, syms, n + 1).addr == (CodePass(lines, syms, n).addr + count) % 0x1_0000
  {
    hide EncodeLine, WordCount;
    var syms := AddrPass(lines, equs, |lines|).syms;
    AddrPassAddsLabels(lines, equs, n, |lines|);
    AddsLabelsSameEqus(AddrPass(lines, equs, n).syms, syms);
    var line := lines[n];
    SizedAlike(line.mnemonic, line.operands, AddrPass(lines, equs, n).syms, syms);
    var addr := CodePass(lines, syms, n).addr;
    if EncodeLine(line.mnemonic, line.operands, addr, syms).Ok? {
      EncodedLength(line.mnemonic, line.operands, addr, syms);
    }
  }

  /**
   * Although pass 1 sizes each `li` before the later labels are known, pass 2 meets every line at
   * the address pass 1 gave it, modulo 2^16, whether or not earlier lines were in error.
   */
  lemma {:induction false} PassesAgree(lines: seq<Line>, equs: Symbols, n: nat)
    requires n <= |lines|
    ensures var syms := AddrPass(lines, equs, |lines|).syms;
            CodePass(lines, syms, n).addr == AddrPass(lines, equs, n).addr % 0x1_0000
  {
    hide EncodeLine, WordCount;
    if n > 0 {
      PassesAgree(lines, equs, n - 1);
      var line := lines[n - 1];
      if line.Op? {
        StepsAgree(lines, equs, n - 1);
        WrapAdd(AddrPass(lines, equs, n - 1).addr,
                WordCount(line.mnemonic, line.operands, AddrPass(lines, equs, n - 1).syms));
      }
    }
  }
}
