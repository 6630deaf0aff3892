/** The text the compiler hands to the assembler, and what the assembler makes of it. */
module CompiledText {
  import opened Prelude
  import opened Text
  import opened Isa
  import opened Machine
  import opened Asm
  import opened Encoder
  import opened Assembler
  import opened Simulation
  import opened EmittedLines
  import opened Ast
  import opened ConstEval
  import opened Registers
  import opened Emit
  import opened Interp
  import opened Verdicts
  import opened Labels
  import opened Correct
  import opened Driver
  import opened Program
  import opened Extent
  import opened Provenance
  import opened Linkage
  import Lexer
  import P = Printer

  /** The lines an accepted module copies from its source, expansions followed. */
  function QuotesOf(m: Module): set<Quote>
    requires ModuleEnv(m).Ok? && |m.tests| == 1
  {
    BodyReach(Context(ProcTable(m.procs), ModuleEnv(m).value, [], false), m.tests[0].stmts).quotes
  }

  // ----- where every line comes from -----

  lemma {:induction false} MadeAll(lines: seq<Line>, asm: seq<P.Written>, quotes: set<Quote>, more: seq<Line>)
    requires AllTraced(lines, asm, quotes) && forall k :: 0 <= k < |more| ==> Clear(more[k])
    ensures AllTraced(lines + more, asm + P.WriteAll(more, true), quotes)
    decreases |more|
  {
    hide AllTraced, Clear, P.Write;
    if more == [] {
      assert lines + more == lines && asm + P.WriteAll(more, true) == asm;
    } else {
      AppendMade(lines, asm, quotes, more[0]);
      MadeAll(lines + [more[0]], asm + [P.Write(more[0], true)], quotes, more[1..]);
      assert more == [more[0]] + more[1..];
      Assoc(lines, [more[0]], more[1..]);
      Assoc(asm, [P.Write(more[0], true)], P.WriteAll(more[1..], true));
    }
  }

  lemma TrailersClear(trailers: seq<Trailer>)
    requires forall t :: t in trailers ==> IsIdent(t.target)
    ensures forall k :: 0 <= k < |TrailerLines(trailers)| ==> Clear(TrailerLines(trailers)[k])
  {
    hide Clear, HaltLine, IsIdent;
    forall k | 0 <= k < 2 * |trailers| ensures Clear(TrailerLines(trailers)[k]) {
      var t := trailers[k / 2];
      assert t in trailers;
      LabelClear(t.target);
      SimpleLines(0, t.code, 0);
    }
  }

  lemma LabelClear(name: string)
    requires IsIdent(name)
    ensures Clear(Label(name))
  {
  }

  lemma StartSourced(e: Emitter, e1: Emitter)
    requires e.Valid() && e.frames == [] && e.trailers == []
    requires e1 == e.(lines := PROLOGUE, asm := P.WriteAll(PROLOGUE, true))
    ensures Sourced(e1, {})
  {
    hide IsIdent, IsLexeme, P.Write, Clear;
    PrologueClear();
    MadeAll([], [], {}, PROLOGUE);
    assert [] + PROLOGUE == PROLOGUE && [] + P.WriteAll(PROLOGUE, true) == P.WriteAll(PROLOGUE, true);
  }

  lemma PrologueClear()
    ensures Clear(PROLOGUE[0]) && Clear(PROLOGUE[1])
  {
    hide IsIdent, IsLexeme;
    MoreIdents();
    assert P.Spellable(Ident("_start"));
  }

  /** Each line is the compiler's own or a copied one, and each copied one is there. */
  lemma ProgramTraced(m: Module) returns (asm: seq<P.Written>)
    requires Lower(m).Ok?
    ensures LowerText(m) == Ok(P.TextAll(asm))
    ensures AllTraced(Lower(m).value, asm, QuotesOf(m))
  {
    hide EmitTest, TrailerLines, ProcTable, ModuleEnv, Halts, AllTraced, P.TextAll, P.WriteAll, BodyReach, Clear;
    var stmts := m.tests[0].stmts;
    var e := Start(true, ProcTable(m.procs), ModuleEnv(m).value);
    var e' := Lowered(true, m).value;
    var e1, e2 := TestParts(e, stmts, e');
    StartSound(e, e1);
    StartSourced(e, e1);
    BodySourced(e1, stmts, e2, {});
    assert ContextOf(e1) == Context(ProcTable(m.procs), ModuleEnv(m).value, [], false);
    assert {} + QuotesOf(m) == QuotesOf(m);
    TrailersClear(e2.trailers);
    MadeAll(e2.lines, e2.asm, QuotesOf(m), TrailerLines(e2.trailers));
    asm := e'.asm;
  }

  // ----- reading the text -----

  /** Every copied numeral denotes a number of 64 bits. */
  predicate QuotesReadable(quotes: set<Quote>) { forall q :: q in quotes ==> P.AllReadable(q.operands) }

  lemma QuoteText(q: Quote)
    ensures if P.AllReadable(q.operands) then P.Writes(TextIn(q), LineOf(q)) else P.Garbled(TextIn(q))
  {
    hide Lexer.Readable, Lexer.ReadOperand, Lexer.Atom;
    if P.AllReadable(q.operands) {
      P.ReadableReads(q.operands);
    }
  }

  lemma MadeText(line: Line)
    requires Clear(line)
    ensures P.Writes(P.Write(line, true), line)
  {
    hide IsIdent, IsLexeme, P.AllSpellable, P.ReadAs;
    match line
    case Label(_) =>
    case Directive(_, args) => P.SpellAllReads(args, true);
    case Op(_, operands) => P.SpellAllReads(operands, true);
  }

  lemma TracedText(line: Line, w: P.Written, quotes: set<Quote>)
    requires Traced(line, w, quotes)
    ensures P.Garbled(w) || P.Writes(w, line)
    ensures QuotesReadable(quotes) ==> P.Writes(w, line)
  {
    hide P.Garbled, P.Writes, P.Write, Clear, P.AllReadable, LineOf, TextIn;
    if Made(line, w) {
      MadeText(line);
    } else {
      var q :| q in quotes && Quoted(line, w, q);
      QuoteText(q);
    }
  }

  /**
   * The assembler reads the text of an accepted module as exactly the lines the compiler meant, if
   * every number that an expanded `fail` or raw statement copies into it is one of 64 bits; if one
   * of them is not, it rejects the text.
   */
  lemma TextReadIff(m: Module)
    requires Lower(m).Ok?
    ensures P.ParseText(LowerText(m).value) == if QuotesReadable(QuotesOf(m)) then Some(Lower(m).value) else None
  {
    hide Lower, LowerText, QuotesOf, P.Writes, P.Garbled, Traced, P.TextAll, P.AllReadable, Lexer.Lex;
    var asm := ProgramTraced(m);
    var lines, quotes := Lower(m).value, QuotesOf(m);
    forall k | 0 <= k < |lines|
      ensures P.Garbled(asm[k]) || P.Writes(asm[k], lines[k])
      ensures QuotesReadable(quotes) ==> P.Writes(asm[k], lines[k])
    {
      TracedText(lines[k], asm[k], quotes);
    }
    if QuotesReadable(quotes) {
      P.TextParses(asm, lines);
    } else {
      var q :| q in quotes && !P.AllReadable(q.operands);
      GarbledPlace(lines, asm, quotes, q);
      P.TextFails(asm, lines);
    }
  }

  lemma GarbledPlace(lines: seq<Line>, asm: seq<P.Written>, quotes: set<Quote>, q: Quote)
    requires AllTraced(lines, asm, quotes) && q in quotes && !P.AllReadable(q.operands)
    ensures exists k :: 0 <= k < |asm| && P.Garbled(asm[k])
  {
    hide Traced, P.Garbled, P.AllReadable;
    assert Occurs(lines, asm, q);
    var k :| 0 <= k < |lines| && k < |asm| && Quoted(lines[k], asm[k], q);
    QuoteText(q);
    assert P.Garbled(asm[k]);
  }

  // ----- assembling it -----

  /** Every copied line has a meaning. */
  predicate QuotesMean(quotes: set<Quote>) { forall q :: q in quotes ==> Resolves(LineOf(q)) }

  lemma ResolveIff(m: Module)
    requires Lower(m).Ok?
    ensures AllResolve(Lower(m).value) <==> QuotesMean(QuotesOf(m))
  {
    hide Lower, LowerText, QuotesOf, P.TextAll, Resolves, LineOf, TextIn, P.Write;
    var asm := ProgramTraced(m);
    var lines, quotes := Lower(m).value, QuotesOf(m);
    if QuotesMean(quotes) {
      forall k | 0 <= k < |lines| ensures Resolves(lines[k]) {
        assert Traced(lines[k], asm[k], quotes);
      }
    }
    if AllResolve(lines) {
      forall q | q in quotes ensures Resolves(LineOf(q)) {
        assert Occurs(lines, asm, q);
      }
    }
  }

  /**
   * An accepted module assembles if and only if the raw, `config` and `fail` statements it expands
   * mean something and its lines fit in 1024 words: nothing the compiler makes can fail.
   */
  lemma CompiledAssembles(m: Module)
    requires Lower(m).Ok? && RawStraight(m)
    ensures var lines := Lower(m).value;
            Assembles(lines) <==> QuotesMean(QuotesOf(m)) && AddrOf(lines, |lines|) <= 1024
  {
    hide Lower, Assembles, AllResolve, AddrOf, Linked, RawStraight, QuotesMean, QuotesOf;
    CompiledLinked(m);
    AssemblesIff(Lower(m).value);
    ResolveIff(m);
  }

  /** What the assembler makes of a text. */
  function AssembleText(s: string): Option<seq<Instr>> {
    match P.ParseText(s)
    case None => None
    case Some(lines) => if Assembly(lines).Ok? then Some(Assembly(lines).value) else None
  }

  /** The same for its text, where the copied words must also be readable. */
  lemma TextAssembles(m: Module)
    requires Lower(m).Ok? && RawStraight(m)
    ensures AssembleText(LowerText(m).value).Some?
       <==> QuotesReadable(QuotesOf(m)) && QuotesMean(QuotesOf(m)) && AddrOf(Lower(m).value, |Lower(m).value|) <= 1024
  {
    hide Lower, LowerText, Assembly, AddrOf, RawStraight, QuotesMean, QuotesReadable, QuotesOf, P.ParseText;
    CompiledAssembles(m);
    TextReadIff(m);
  }

  /**
   * From source to words, through the text: whenever the text of an accepted module assembles, its
   * words, on every input, come to a stop having done on the bus what the interpreter says the
   * source does, with the same status.
   */
  lemma EndToEnd(m: Module, rx: seq<byte>) returns (n: nat)
    requires Lower(m).Ok? && RawStraight(m)
    requires AssembleText(LowerText(m).value).Some?
    ensures var s := RunWords(EncodeAll(AssembleText(LowerText(m).value).value), n, Initial(rx));
            && RunSource(m, rx) == Stop(s.dev, s.status)
            && (s.status.Halted? || s.status.Trapped? || s.status.Starved?)
  {
    hide Lower, LowerText, RawStraight, P.ParseText, Assembly, RunWords, EncodeAll, RunSource, QuotesReadable, QuotesOf;
    TextReadIff(m);
    n := CompilerCorrect(m, rx);
  }
}
