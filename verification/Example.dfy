/** Three small modules: their texts, and what the main results say of them. */
module Example {
  import opened Prelude
  import opened Text
  import opened Asm
  import opened Encoder
  import opened Assembler
  import opened Simulation
  import opened EmittedLines
  import opened Ast
  import opened ConstEval
  import opened Registers
  import opened Emit
  import opened Verdicts
  import opened Labels
  import opened Correct
  import opened Conservation
  import opened Linkage
  import opened Driver
  import opened Program
  import opened CsSafety
  import opened Extent
  import opened Provenance
  import opened CompiledText
  import opened Values
  import opened Invisible
  import Isa
  import opened Interp
  import Lexer
  import P = Printer

  /** `test t { frame { expect crc else 0x11 } pass }` */
  const FRAME := Frame([Expect(IntLit(0x11))])
  const SAMPLE := Module([], [], [], [Test("t", [FRAME, Pass])])

  const LATCHED := Deferred(1, FailLabel(0), 0x11)

  /** What the sample lowers to. */
  function SampleLines(): seq<Line> {
    PROLOGUE + [CS_ASSERT, GetLine(1), RdsrLine(1), CS_DEASSERT, BnezLine(LATCHED), HaltLine(0)]
    + [Label(FailLabel(0)), HaltLine(0x11)]
  }

  lemma FirstFree(p: Pool)
    requires p.Valid() && !p.busy[1]
    ensures Alloc(p).Some? && Alloc(p).value.reg == 1
  {
  }

  lemma SampleRecv(e: Emitter)
    requires e.Valid() && |e.lines| == 3 && !e.pool.busy[1]
    ensures var r := RecvOne(e, Discard);
            && r.Ok? && !r.value.pool.busy[1]
            && r.value == e.(lines := e.lines + [GetLine(1)], asm := r.value.asm, pool := r.value.pool)
  {
    hide Alloc, GetLine, P.Write;
    FirstFree(e.pool);
  }

  lemma SampleLatch(e: Emitter)
    requires e.Valid() && |e.lines| == 4 && e.frames == [[]] && e.gensym == 0 && !e.pool.busy[1] && e.trailers == []
    ensures var r := Latch(e, 0x11);
            && r.Ok? && r.value.lines == e.lines + [RdsrLine(1)] && r.value.frames == [[LATCHED]] && r.value.trailers == []
  {
    hide Alloc, FailLabel, P.Write;
    FirstFree(e.pool);
    assert e.frames[0] + [LATCHED] == [LATCHED];
  }

  /** The body of the frame. */
  lemma SampleExpect(e: Emitter)
    requires e.Valid() && |e.lines| == 3 && e.frames == [[]] && e.gensym == 0 && !e.pool.busy[1] && e.trailers == []
    ensures var r := EmitBody(e, [Expect(IntLit(0x11))]);
            && r.Ok? && r.value.lines == e.lines + [GetLine(1), RdsrLine(1)]
            && r.value.frames == [[LATCHED]] && r.value.trailers == []
  {
    hide RecvOne, Latch, GetLine, RdsrLine;
    SampleRecv(e);
    var e1 := RecvOne(e, Discard).value;
    SampleLatch(e1);
    var e2 := Latch(e1, 0x11).value;
    assert LowerExpect(e, IntLit(0x11)) == Ok(e2);
    assert EmitStmt(e, Expect(IntLit(0x11))) == Ok(e2);
    assert [Expect(IntLit(0x11))][1..] == [];
    assert EmitBody(e, [Expect(IntLit(0x11))]) == Ok(e2);
  }

  lemma SampleFrame(e: Emitter)
    requires e.Valid() && e.lines == PROLOGUE && e.frames == [] && e.gensym == 0 && !e.pool.busy[1] && e.trailers == []
    ensures var r := EmitStmt(e, FRAME);
            && r.Ok? && r.value.lines == PROLOGUE + [CS_ASSERT, GetLine(1), RdsrLine(1), CS_DEASSERT, BnezLine(LATCHED)]
            && r.value.frames == [] && r.value.trailers == [Trailer(FailLabel(0), 0x11)]
  {
    hide EmitBody, GetLine, FailLabel, BnezLine, Exit, P.Write;
    var e1 := OpenFrame(e).value;
    assert e1.lines == PROLOGUE + [CS_ASSERT];
    SampleExpect(e1);
    var e2 := EmitBody(e1, [Expect(IntLit(0x11))]).value;
    SampleClose(e2);
  }

  lemma SampleClose(e: Emitter)
    requires e.Valid() && |e.lines| == 5 && e.frames == [[LATCHED]] && e.trailers == []
    ensures var r := CloseFrame(e);
            && r.Ok? && r.value.lines == e.lines + [CS_DEASSERT, BnezLine(LATCHED)]
            && r.value.frames == [] && r.value.trailers == [Trailer(FailLabel(0), 0x11)]
  {
    hide FailLabel, BnezLine, Exit, P.Write;
    var e0 := e.(frames := e.frames[..0]);
    var e1 := Push(e0, CS_DEASSERT).value;
    assert [LATCHED][1..] == [];
    var e2 := Push(e1, BnezLine(LATCHED)).value;
    assert PushVerdicts(e1, [LATCHED]) == Ok(e2.(trailers := [Trailer(FailLabel(0), 0x11)]));
  }

  lemma SampleLowers()
    ensures Lower(SAMPLE) == Ok(SampleLines())
  {
    hide EmitStmt, PushTrailers, FailLabel, BnezLine, GetLine, HaltLine, P.Write;
    var env := EMPTY_ENV;
    assert ModuleEnv(SAMPLE) == Ok(env);
    assert Terminator([FRAME, Pass][1]);
    assert ProcTable([]) == map[];
    var e := Start(true, map[], env);
    assert [] + [PROLOGUE[0]] + [PROLOGUE[1]] == PROLOGUE;
    var e1 := Push(Push(e, PROLOGUE[0]).value, PROLOGUE[1]).value;
    assert e1.lines == PROLOGUE;
    SampleFrame(e1);
    var e2 := EmitStmt(e1, FRAME).value;
    PassLowers(e2);
    var e3 := EmitStmt(e2, Pass).value;
    assert [FRAME, Pass][1..] == [Pass] && [Pass][1..] == [];
    assert EmitBody(e2, [Pass]) == Ok(e3);
    assert EmitBody(e1, [FRAME, Pass]) == Ok(e3);
    SampleTrailers(e3.(trailers := []));
    assert e3.lines == PROLOGUE + [CS_ASSERT, GetLine(1), RdsrLine(1), CS_DEASSERT, BnezLine(LATCHED), HaltLine(0)];
    assert EmitTest(e, [FRAME, Pass]).Ok? && EmitTest(e, [FRAME, Pass]).value.lines == SampleLines();
    assert Lowered(true, SAMPLE) == EmitTest(e, [FRAME, Pass]);
  }

  lemma PassLowers(e: Emitter)
    requires e.Valid() && e.frames == [] && |e.lines| < 100
    ensures EmitStmt(e, Pass) == Ok(e.(lines := e.lines + [HaltLine(0)], asm := e.asm + [P.Write(HaltLine(0), true)]))
  {
    hide HaltLine, P.Write;
  }

  lemma SampleTrailers(e: Emitter)
    requires e.Valid() && |e.lines| < 100
    ensures PushTrailers(e, [Trailer(FailLabel(0), 0x11)]).Ok?
    ensures PushTrailers(e, [Trailer(FailLabel(0), 0x11)]).value.lines == e.lines + [Label(FailLabel(0)), HaltLine(0x11)]
  {
    hide HaltLine, FailLabel, P.Write;
    assert [Trailer(FailLabel(0), 0x11)][1..] == [];
  }

  // ----- the conditions -----

  lemma SampleMeans()
    ensures AllResolve(SampleLines())
  {
    hide Resolve, FailLabel;
    PinsResolve();
    GetResolves(1);
    RdsrResolves(1);
    BnezResolves(1, FailLabel(0));
    HaltResolves(0);
    HaltResolves(0x11);
  }

  lemma {:induction false} TwoEach(lines: seq<Line>, n: nat)
    requires n <= |lines|
    ensures AddrOf(lines, n) <= 2 * n
  {
    hide WordCount, EquPass;
    if n > 0 {
      TwoEach(lines, n - 1);
    }
  }

  lemma SampleFits()
    ensures AddrOf(SampleLines(), |SampleLines()|) <= MAX_WORDS
  {
    hide AddrOf;
    TwoEach(SampleLines(), |SampleLines()|);
  }

  lemma QuietBody(c: Context, s: Stmt, rest: seq<Stmt>)
    requires StmtReach(c, s).quotes == {}
    ensures BodyReach(c, [s] + rest).quotes == BodyReach(c, rest).quotes
  {
    hide StmtReach;
    assert ([s] + rest)[1..] == rest;
  }

  lemma SampleQuotes()
    requires Lower(SAMPLE).Ok?
    ensures QuotesOf(SAMPLE) == {}
  {
    hide Lower, ModuleEnv;
    assert ProcTable([]) == map[];
    var c := Context(map[], ModuleEnv(SAMPLE).value, [], false);
    QuietBody(c.(inFrame := true), Expect(IntLit(0x11)), []);
    assert [Expect(IntLit(0x11))] + [] == [Expect(IntLit(0x11))] && [FRAME] + [Pass] == [FRAME, Pass];
    assert StmtReach(c, FRAME).quotes == BodyReach(c.(inFrame := true), [Expect(IntLit(0x11))]).quotes;
    QuietBody(c, FRAME, [Pass]);
    QuietBody(c, Pass, []);
    assert [Pass] + [] == [Pass];
  }

  /** The sample is accepted, assembles, and satisfies every condition put on raw statements. */
  lemma SampleQualifies()
    ensures Lower(SAMPLE).Ok? && Assembles(Lower(SAMPLE).value) && AssembleText(LowerText(SAMPLE).value).Some?
    ensures RawStraight(SAMPLE) && ModuleBlind(SAMPLE) && ModuleQuiet(SAMPLE, {})
  {
    hide Lower, LowerText, Assembly, AddrOf, SampleLines, AllResolve, QuotesOf, P.ParseText, Linked;
    SampleLowers();
    SampleMeans();
    SampleFits();
    assert ProcTable([]) == map[];
    SampleQuotes();
    CompiledLinked(SAMPLE);
    AssemblesIff(SampleLines());
    TextReadIff(SAMPLE);
  }

  // ----- copied lines -----

  /** `test t { cs_assert mark 1, x1 pass }`, which looks at a register. */
  const MARK: Stmt := Raw("mark", ["1", "x1"])
  const OPEN: Stmt := Raw("cs_assert", [])
  const RAW := Module([], [], [], [Test("t", [OPEN, MARK, Pass])])

  lemma CopyLowers(e: Emitter, mnemonic: Word, operands: seq<Lexeme>)
    requires e.Valid() && e.frames == [] && |e.lines| < 100
    ensures EmitStmt(e, Raw(mnemonic, operands))
         == Ok(e.(lines := e.lines + [CopiedLine(mnemonic, operands)], asm := e.asm + [CopiedText(mnemonic, operands)]))
  {
    hide CopiedLine, CopiedText;
  }

  function RawTexts(): seq<P.Written> {
    P.WriteAll(PROLOGUE, true)
    + [CopiedText("cs_assert", []), CopiedText("mark", ["1", "x1"]), P.Write(HaltLine(0), true)]
  }

  lemma RawBody(e: Emitter)
    requires e.Valid() && e.frames == [] && |e.lines| < 50 && e.trailers == []
    ensures var r := EmitBody(e, [OPEN, MARK, Pass]);
            && r.Ok? && r.value.trailers == [] && |r.value.lines| == |e.lines| + 3
            && r.value.asm == e.asm + [CopiedText("cs_assert", []), CopiedText("mark", ["1", "x1"]),
                                       P.Write(HaltLine(0), true)]
  {
    hide EmitStmt, CopiedLine, CopiedText, HaltLine, P.Write;
    CopyLowers(e, "cs_assert", []);
    var e1 := EmitStmt(e, OPEN).value;
    CopyLowers(e1, "mark", ["1", "x1"]);
    var e2 := EmitStmt(e1, MARK).value;
    PassLowers(e2);
    var e3 := EmitStmt(e2, Pass).value;
    assert [OPEN, MARK, Pass][1..] == [MARK, Pass] && [MARK, Pass][1..] == [Pass] && [Pass][1..] == [];
    assert EmitBody(e2, [Pass]) == Ok(e3);
    assert EmitBody(e1, [MARK, Pass]) == Ok(e3);
  }

  lemma NoTrailers(e: Emitter)
    requires e.Valid() && e.trailers == []
    ensures PushTrailers(e.(trailers := []), e.trailers) == Ok(e)
  {
  }

  lemma RawLowers()
    ensures LowerText(RAW) == Ok(P.TextAll(RawTexts())) && |Lower(RAW).value| == 5
  {
    hide EmitBody, PushTrailers, P.Write, P.TextAll, CopiedText, HaltLine;
    var env := EMPTY_ENV;
    assert ModuleEnv(RAW) == Ok(env);
    assert Terminator([OPEN, MARK, Pass][2]);
    assert ProcTable([]) == map[];
    var e := Start(true, map[], env);
    assert [] + [PROLOGUE[0]] + [PROLOGUE[1]] == PROLOGUE;
    var e1 := Push(Push(e, PROLOGUE[0]).value, PROLOGUE[1]).value;
    assert e1.asm == P.WriteAll(PROLOGUE, true);
    RawBody(e1);
    NoTrailers(EmitBody(e1, [OPEN, MARK, Pass]).value);
    assert Lowered(true, RAW) == EmitTest(e, [OPEN, MARK, Pass]);
  }

  lemma {:induction false} TextMore(w: P.Written, ws: seq<P.Written>)
    ensures P.TextAll([w] + ws) == P.TextOf(w) + P.TextAll(ws)
  {
    assert ([w] + ws)[1..] == ws;
  }

  lemma PrologueText()
    ensures P.TextOf(P.Write(PROLOGUE[0], true)) == ".globl _start\n"
    ensures P.TextOf(P.Write(PROLOGUE[1], true)) == "_start:\n"
  {
    assert P.SpellAll([Ident("_start")], true) == ["_start"];
  }

  lemma HaltText()
    ensures P.TextOf(P.Write(HaltLine(0), true)) == "\thalt 0x00\n"
  {
    assert P.SpellAll([Num(0)], true) == ["0x00"];
    assert P.Arguments(["0x00"]) == " 0x00";
  }

  lemma OpenText()
    ensures P.TextOf(CopiedText("cs_assert", [])) == "\tcs_assert\n"
  {
  }

  lemma MarkText()
    ensures P.TextOf(CopiedText("mark", ["1", "x1"])) == "\tmark 1, x1\n"
  {
    assert ["1", "x1"][1..] == ["x1"] && P.Join(["x1"]) == "x1";
    assert P.Join(["1", "x1"]) == "1, x1";
    assert P.Arguments(["1", "x1"]) == " 1, x1";
  }

  /** The text the repository expects of it, with the words as they were spelled. */
  lemma RawText()
    ensures LowerText(RAW)
         == Ok(".globl _start\n" + ("_start:\n" + ("\tcs_assert\n" + ("\tmark 1, x1\n" + "\thalt 0x00\n"))))
  {
    hide P.TextOf, P.Write, CopiedText, LowerText, HaltLine, P.TextAll;
    RawLowers();
    PrologueText();
    OpenText();
    MarkText();
    HaltText();
    var a, b := P.Write(PROLOGUE[0], true), P.Write(PROLOGUE[1], true);
    var c, d, h := CopiedText("cs_assert", []), CopiedText("mark", ["1", "x1"]), P.Write(HaltLine(0), true);
    assert RawTexts() == [a] + ([b] + ([c] + ([d] + [h])));
    TextOne(h);
    TextMore(d, [h]);
    TextMore(c, [d] + [h]);
    TextMore(b, [c] + ([d] + [h]));
    TextMore(a, [b] + ([c] + ([d] + [h])));
  }

  lemma TextOne(w: P.Written)
    ensures P.TextAll([w]) == P.TextOf(w)
  {
    hide P.TextOf;
    assert [w][1..] == [] && P.TextOf(w) + "" == P.TextOf(w);
  }

  lemma RawQuotes()
    requires Lower(RAW).Ok?
    ensures QuotesOf(RAW) == {Quote("cs_assert", []), Quote("mark", ["1", "x1"])}
  {
    var stmts := [OPEN, MARK, Pass];
    assert stmts[1..] == [MARK, Pass] && [MARK, Pass][1..] == [Pass] && [Pass][1..] == [];
    assert ProcTable([]) == map[];
    var c := Context(map[], ModuleEnv(RAW).value, [], false);
    assert BodyReach(c, [Pass]).quotes == {};
    assert BodyReach(c, [MARK, Pass]).quotes == {Quote("mark", ["1", "x1"])};
    assert BodyReach(c, stmts).quotes == {Quote("cs_assert", [])} + {Quote("mark", ["1", "x1"])};
  }

  lemma MarkReads()
    ensures P.AllReadable(["1", "x1"]) && P.ReadAll(["1", "x1"]) == [Num(1), Emit.Reg(1)]
  {
    hide P.ReadAll, P.AllReadable;
    OneReads();
    TwoRead("1", "x1");
  }

  lemma TwoRead(a: Lexeme, b: Lexeme)
    requires Lexer.Readable(a) && Lexer.Readable(b)
    ensures P.AllReadable([a, b]) && P.ReadAll([a, b]) == [Lexer.ReadOperand(a), Lexer.ReadOperand(b)]
  {
    hide Lexer.Readable, Lexer.ReadOperand;
  }

  lemma OneReads()
    ensures Lexer.Readable("1") && Lexer.ReadOperand("1") == Num(1)
    ensures Lexer.Readable("x1") && Lexer.ReadOperand("x1") == Emit.Reg(1)
  {
    var s := "1";
    assert s[0..] == s && s[0..0 + 1] == s;
    Lexer.RunExtends("1", "");
    assert "1" + "" == "1" && "1"[..0] == "";
    assert Magnitude("1", 10) == Some(1);
    assert Dec(1) == "1" && RegName(1) == "x1";
  }

  lemma MarkResolves()
    ensures Resolve("mark", [Num(1), Emit.Reg(1)], map[]) == Ok(Plain(Isa.Mark(1, 1)))
  {
    hide ResolveReg, MnemonicOf, ResolveOp;
    RegResolves(1);
    MarkName();
    MarkOp(Args([Num(1), Emit.Reg(1)], map[]));
  }

  lemma MarkOp(a: seq<Actual>)
    requires |a| == 2 && a[0].imm == Ok(1) && ResolveReg(a[1].op) == Ok(1)
    ensures ResolveOp(MMark, a) == Ok(Plain(Isa.Mark(1, 1)))
  {
    hide ResolveReg;
  }

  lemma MarkMeans()
    ensures RawKeeps("mark", [Num(1), Emit.Reg(1)], WINDOW) && Resolves(Op("mark", [Num(1), Emit.Reg(1)]))
    ensures RawKeeps("cs_assert", [], WINDOW) && Resolves(CS_ASSERT)
  {
    hide Resolve, WINDOW;
    PinsResolve();
    MarkResolves();
  }

  lemma MarkName()
    ensures MnemonicOf("mark") == MMark
  {
  }

  /** The module reads a register in a raw statement, and the main results cover it. */
  lemma RawQualifies()
    ensures Lower(RAW).Ok? && AssembleText(LowerText(RAW).value).Some?
    ensures RawStraight(RAW) && ModuleKeeps(RAW, WINDOW)
  {
    hide Lower, LowerText, AddrOf, QuotesOf, P.ParseText, RawTexts, P.ReadAll, P.AllReadable, RawKeeps, Resolves,
         AssembleText, WINDOW;
    RawLowers();
    RawQuotes();
    MarkReads();
    MarkMeans();
    NoWords();
    MarkKeeps();
    TwoEach(Lower(RAW).value, |Lower(RAW).value|);
    TextAssembles(RAW);
  }

  lemma NoWords()
    ensures P.AllReadable([]) && P.ReadAll([]) == []
  {
  }

  lemma MarkKeeps()
    ensures ModuleKeeps(RAW, WINDOW) && RawStraight(RAW)
  {
    hide RawKeeps, P.ReadAll, WINDOW;
    MarkReads();
    MarkMeans();
    NoWords();
    KeepsFewer(RAW);
  }

  /** `test t { fail 0x1_1 }`: the language takes the numeral, the assembler does not. */
  const BAD := Module([], [], [], [Test("t", [Fail("0x1_1")])])

  lemma BadDigits()
    ensures !Lexer.Readable("0x1_1")
  {
    var s := "0x1_1";
    assert s[0..] == s && "0x" <= s && s[2..] == "1_1";
    Lexer.RunExtends("1_1", "");
    assert "1_1" + "" == "1_1" && s[2..2 + 3] == "1_1";
    assert "1_1"[..2] == "1_";
    assert DigitIn('_', 16) == None;
    assert Magnitude("1_", 16) == None;
    assert Magnitude("1_1", 16) == None;
  }

  lemma BadLowers()
    ensures Lower(BAD).Ok?
  {
    hide PushTrailers, P.Write, CopiedLine, CopiedText;
    var env := EMPTY_ENV;
    var stmts := BAD.tests[0].stmts;
    assert ModuleEnv(BAD) == Ok(env);
    assert Terminator(stmts[0]);
    assert ProcTable([]) == map[];
    var e := Start(true, map[], env);
    var e1 := Push(Push(e, PROLOGUE[0]).value, PROLOGUE[1]).value;
    var e2 := EmitStmt(e1, stmts[0]).value;
    assert stmts[1..] == [];
    assert EmitBody(e1, stmts) == Ok(e2);
    NoTrailers(e2);
    assert Lowered(true, BAD) == EmitTest(e, stmts);
  }

  lemma BadQuoted()
    requires Lower(BAD).Ok?
    ensures Quote(HALT, ["0x1_1"]) in QuotesOf(BAD)
  {
    var stmts := BAD.tests[0].stmts;
    assert stmts[1..] == [];
    assert ProcTable([]) == map[];
    var c := Context(map[], ModuleEnv(BAD).value, [], false);
    assert StmtReach(c, stmts[0]).quotes == {Quote(HALT, ["0x1_1"])};
  }

  lemma Unreadable(q: Quote)
    requires q.operands != [] && !Lexer.Readable(q.operands[0])
    ensures !P.AllReadable(q.operands)
  {
  }

  /** An accepted module whose text has no tokens. */
  lemma BadNumeral()
    ensures Lower(BAD).Ok? && P.ParseText(LowerText(BAD).value) == None
  {
    hide Lower, LowerText, P.ParseText, Lexer.Readable, P.AllReadable;
    BadLowers();
    BadDigits();
    var q := Quote(HALT, ["0x1_1"]);
    BadQuoted();
    Unreadable(q);
    TextReadIff(BAD);
  }
}
