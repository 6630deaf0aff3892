/** When the lines of a compiled program assemble. */
module Linkage {
  import opened Prelude
  import opened Isa
  import opened Machine
  import opened Asm
  import opened Encoder
  import opened Assembler
  import opened LabelMachine
  import opened EmittedLines
  import opened Simulation
  import opened Ast
  import opened ConstEval
  import opened Registers
  import opened Emit
  import opened Verdicts
  import opened Labels
  import opened Ownership
  import opened Conservation
  import opened Correct
  import opened Driver
  import opened Program
  import P = Printer

  /** Every branch goes to a label in front of an instruction. */
  ghost predicate AllLand(lines: seq<Line>) {
    forall i :: 0 <= i < |lines| && TargetOf(lines[i]).Some? ==> Lands(lines, TargetOf(lines[i]).value)
  }

  ghost predicate AllResolve(lines: seq<Line>) { forall i :: 0 <= i < |lines| ==> Resolves(lines[i]) }

  /** Programs whose only directive is `globl`, and that define each label once and branch to labels only. */
  ghost predicate Linked(lines: seq<Line>) { OnlyGlobl(lines) && UniqueLabels(lines) && AllLand(lines) }

  // ----- the address pass -----

  /** Unique labels are all entered, at the addresses of their lines, without complaint. */
  lemma {:induction false} LabelsEntered(lines: seq<Line>, n: nat)
    requires UniqueLabels(lines) && n <= |lines|
    ensures var st := AddrPass(lines, map[], n);
            && st.diags == []
            && (forall j :: 0 <= j < n && lines[j].Label? ==>
                  lines[j].name in st.syms && st.syms[lines[j].name] == LabelAt(AddrPass(lines, map[], j).addr % 0x1_0000))
            && (forall name :: name in st.syms ==> exists j :: 0 <= j < n && lines[j] == Label(name))
  {
    hide WordCount, UniqueLabels;
    if n > 0 {
      LabelsEntered(lines, n - 1);
      var line := lines[n - 1];
      if line.Label? {
        NotBefore(lines, n - 1);
        assert line.name !in AddrPass(lines, map[], n - 1).syms;
        assert lines[n - 1] == Label(line.name);
      }
    }
  }

  lemma NotBefore(lines: seq<Line>, k: nat)
    requires UniqueLabels(lines) && k < |lines| && lines[k].Label?
    ensures forall j :: 0 <= j < k ==> lines[j] != lines[k]
  {
  }

  lemma LinkedEqus(lines: seq<Line>)
    requires OnlyGlobl(lines)
    ensures EquPass(lines, |lines|) == EquState(map[], []) && Equs(lines) == map[]
  {
    NoEqus(lines, |lines|);
  }

  // ----- branch offsets -----

  /** In a program of at most 1024 words every branch is in range. */
  lemma InReach(lines: seq<Line>, i: nat)
    requires Linked(lines) && AddrOf(lines, |lines|) <= MAX_WORDS
    requires i < |lines| && TargetOf(lines[i]).Some?
    ensures AddrOf(lines, i) < MAX_WORDS && BranchOffset(TargetOf(lines[i]).value, AddrOf(lines, i), Syms(lines)).Ok?
  {
    hide WordCount, EquPass, AddrPass, TargetOf, UniqueLabels, OnlyGlobl;
    LinkedEqus(lines);
    var name := TargetOf(lines[i]).value;
    TargetIsOp(lines[i]);
    var k: nat :| LandsAt(lines, name, k);
    LabelsEntered(lines, |lines|);
    OpBelow(lines, i);
    OpBelow(lines, k + 1);
    SameAddr(lines, k);
  }

  lemma TargetIsOp(line: Line)
    requires TargetOf(line).Some?
    ensures line.Op?
  {
    hide Resolve;
  }

  /** An instruction starts below the end of the program. */
  lemma OpBelow(lines: seq<Line>, k: nat)
    requires k < |lines| && lines[k].Op?
    ensures AddrOf(lines, k) < AddrOf(lines, |lines|)
  {
    hide WordCount, EquPass;
    AddrPassAddsLabels(lines, Equs(lines), k + 1, |lines|);
  }

  /** A label has the address of the next line. */
  lemma SameAddr(lines: seq<Line>, k: nat)
    requires k < |lines| && lines[k].Label?
    ensures AddrOf(lines, k) == AddrOf(lines, k + 1)
  {
    hide WordCount, EquPass;
  }

  // ----- the code pass -----

  lemma LineOk(lines: seq<Line>, k: nat)
    requires Linked(lines) && AllResolve(lines) && AddrOf(lines, |lines|) <= MAX_WORDS
    requires k < |lines| && lines[k].Op?
    ensures AddrOf(lines, k) < MAX_WORDS
    ensures EncodeLine(lines[k].mnemonic, lines[k].operands, AddrOf(lines, k), Syms(lines)).Ok?
  {
    hide ResolveOp, MnemonicOf, EquPass, AddrPass, BranchOffset, TileLi, UniqueLabels, OnlyGlobl, WordCount, AllLand,
         Linked;
    assert Equs(lines) == map[] by { LinkedHasNoEqus(lines); }
    EqusSuffice(lines, lines[k].mnemonic, lines[k].operands);
    OpBelow(lines, k);
    assert Resolves(lines[k]);
    if Resolve(lines[k].mnemonic, lines[k].operands, map[]).value.Jump? {
      InReach(lines, k);
    }
  }

  lemma LinkedHasNoEqus(lines: seq<Line>)
    requires Linked(lines)
    ensures EquPass(lines, |lines|) == EquState(map[], []) && Equs(lines) == map[]
  {
    LinkedEqus(lines);
  }

  lemma {:induction false} CodeOk(lines: seq<Line>, n: nat)
    requires Linked(lines) && AllResolve(lines) && AddrOf(lines, |lines|) <= MAX_WORDS && n <= |lines|
    ensures CodePass(lines, Syms(lines), n).diags == []
  {
    hide EncodeLine, WordCount, AllResolve, EquPass, AddrPass, AllLand, UniqueLabels;
    if n > 0 {
      CodeOk(lines, n - 1);
      PassesAgree(lines, Equs(lines), n - 1);
      var line := lines[n - 1];
      if line.Op? {
        LineOk(lines, n - 1);
      }
    }
  }

  /**
   * A linked program assembles if and only if each of its lines means something and it fits in the
   * 1024 words of the instruction store: no branch is ever out of range and no label missing.
   */
  lemma AssemblesIff(lines: seq<Line>)
    requires Linked(lines)
    ensures Assembles(lines) <==> AllResolve(lines) && AddrOf(lines, |lines|) <= 1024
  {
    hide EncodeLine, WordCount, Linked, Resolves;
    LinkedHasNoEqus(lines);
    if AllResolve(lines) && AddrOf(lines, |lines|) <= MAX_WORDS {
      CodeOk(lines, |lines|);
      LinkedUnique(lines);
      LabelsEntered(lines, |lines|);
    }
    if Assembles(lines) {
      forall k | 0 <= k < |lines| ensures Resolves(lines[k]) {
        LineMeans(lines, k);
      }
      NoDiags(lines, |lines|);
    }
  }

  lemma LinkedUnique(lines: seq<Line>)
    requires Linked(lines)
    ensures UniqueLabels(lines)
  {
  }

  lemma LineMeans(lines: seq<Line>, k: nat)
    requires Linked(lines) && Assembles(lines) && k < |lines|
    ensures Resolves(lines[k])
  {
    hide ResolveOp, MnemonicOf, EquPass, AddrPass, BranchOffset, TileLi, WordCount, Linked, Assembly;
    LinkedHasNoEqus(lines);
    if lines[k].Op? {
      EqusSuffice(lines, lines[k].mnemonic, lines[k].operands);
      LineEncodes(lines, k);
    }
  }

  // ----- compiled programs are linked -----

  lemma TrailerOps(lines: seq<Line>, trailers: seq<Trailer>, i: nat)
    requires i < |trailers|
    ensures LandsAt(lines + TrailerLines(trailers), trailers[i].target, |lines| + 2 * i)
  {
    var all := lines + TrailerLines(trailers);
    assert all[|lines| + 2 * i] == TrailerLines(trailers)[2 * i];
    assert all[|lines| + 2 * i + 1] == TrailerLines(trailers)[2 * i + 1];
  }

  lemma ProgramLands(lines: seq<Line>, trailers: seq<Trailer>)
    requires Targeted(lines, trailers)
    ensures AllLand(lines + TrailerLines(trailers))
  {
    hide TrailerLines, TargetOf, Lands;
    var all := lines + TrailerLines(trailers);
    forall i | 0 <= i < |all| && TargetOf(all[i]).Some? ensures Lands(all, TargetOf(all[i]).value) {
      if i < |lines| {
        var name := TargetOf(all[i]).value;
        assert Aimed(lines, trailers, lines[i]);
        if Lands(lines, name) {
          LandsGrows(lines, TrailerLines(trailers), name);
        } else {
          var k :| 0 <= k < |trailers| && trailers[k].target == name;
          TrailerOps(lines, trailers, k);
          LandsIntro(all, name, |lines| + 2 * k);
        }
      } else {
        TrailerTargets(trailers, i - |lines|);
      }
    }
  }

  lemma LandsIntro(lines: seq<Line>, name: string, k: nat)
    requires LandsAt(lines, name, k)
    ensures Lands(lines, name)
  {
  }

  lemma TrailerTargets(trailers: seq<Trailer>, i: nat)
    requires i < |TrailerLines(trailers)|
    ensures TargetOf(TrailerLines(trailers)[i]) == None
  {
    hide Resolve;
    if i % 2 == 1 {
      HarmlessLines(0, trailers[i / 2].code, {});
    }
  }

  /**
   * Every accepted module is linked: its generated labels are pairwise distinct, and each branch
   * target is defined exactly once, in front of an instruction.
   */
  lemma CompiledLinked(m: Module)
    requires Lower(m).Ok? && RawStraight(m)
    ensures Linked(Lower(m).value)
  {
    hide TrailerLines, AllLand, UniqueLabels, OnlyGlobl, Lower, Tracked;
    var e1, e2 := TrackedProgram(m, {});
    TargetedPart(e2, {});
    ProgramLands(e2.lines, e2.trailers);
  }

  /** The emitter before and after the statements of an accepted module. */
  lemma TrackedProgram(m: Module, kept: set<nat>) returns (e1: Emitter, e2: Emitter)
    requires Lower(m).Ok? && ModuleKeeps(m, kept)
    ensures e2.Valid() && Tracked(e2, kept) && e2.frames == []
    ensures Lower(m).value == e2.lines + TrailerLines(e2.trailers)
    ensures UniqueLabels(Lower(m).value) && OnlyGlobl(Lower(m).value)
  {
    hide EmitTest, TrailerLines, AllKeep, ProcTable, ModuleEnv, Within, Labelled, Halts, ProcsKeep, Tracked, Step,
         UniqueLabels, OnlyGlobl, P.WriteAll;
    var stmts := m.tests[0].stmts;
    var e := Start(true, ProcTable(m.procs), ModuleEnv(m).value);
    e1, e2 := TestParts(e, stmts, Lowered(true, m).value);
    StartSound(e, e1);
    StartLabelled(e, e1);
    WholeProgram(e1, stmts, e2);
    TableKeeps(m, kept);
    StartTracked(e, e1, kept);
    BodyTracked(e1, stmts, e2, kept);
  }

  lemma TargetedPart(e: Emitter, kept: set<nat>)
    requires Tracked(e, kept)
    ensures Targeted(e.lines, e.trailers) && Judged(e.lines, kept)
  {
  }

  lemma StartTracked(e: Emitter, e1: Emitter, kept: set<nat>)
    requires e.Valid() && e.frames == [] && e.pool == EMPTY_POOL && e1 == e.(lines := PROLOGUE, asm := e1.asm)
    ensures Tracked(e1, kept)
  {
    hide Resolve;
    EmptyAccounted();
  }

  lemma EmptyAccounted()
    ensures Accounted(EMPTY_POOL, [])
  {
  }

  /**
   * In every accepted module, each verdict branch on a register that no raw statement writes looks
   * at a residue latched in it by an earlier line, with no write of the register in between.
   */
  lemma EveryVerdictHeld(m: Module, kept: set<nat>, k: nat) returns (i: nat)
    requires Lower(m).Ok? && ModuleKeeps(m, kept)
    requires k < |Lower(m).value| && Judges(Lower(m).value[k]).Some? && Judges(Lower(m).value[k]).value in kept
    ensures var lines, r := Lower(m).value, Judges(Lower(m).value[k]).value;
            && i < k && lines[i] == RdsrLine(r)
            && forall j :: i < j < k ==> !Writes(lines[j], r)
  {
    hide Lower, TrailerLines, Tracked, Judges, RdsrLine, Writes, UniqueLabels, OnlyGlobl;
    var e1, e2 := TrackedProgram(m, kept);
    TargetedPart(e2, kept);
    var lines, r := Lower(m).value, Judges(Lower(m).value[k]).value;
    if k >= |e2.lines| {
      TrailerTargets(e2.trailers, k - |e2.lines|);
      JudgesTarget(lines[k]);
    }
    assert JudgedAt(e2.lines, k, kept) && lines[k] == e2.lines[k];
    i :| LatchedFor(e2.lines, r, i, k);
  }
}
