/** Lines and instructions as text, and back. */
module Printer {
  import opened Prelude
  import opened Text
  import opened Asm
  import opened Lexer
  import opened Parser

  /** A line before it is one text: every operand spelled out. */
  datatype Written =
    | WLabel(name: string)
    | WDirective(name: string, args: seq<string>)
    | WOp(tab: bool, mnemonic: string, operands: seq<string>)

  function Join(texts: seq<string>): string {
    if texts == [] then "" else if |texts| == 1 then texts[0] else texts[0] + (", " + Join(texts[1..]))
  }

  function Arguments(texts: seq<string>): string { if texts == [] then "" else " " + Join(texts) }

  function TextOf(w: Written): string {
    match w
    case WLabel(name) => name + (":" + "\n")
    case WDirective(name, args) => "." + (name + (Arguments(args) + "\n"))
    case WOp(tab, mnemonic, operands) => (if tab then "\t" else "") + (mnemonic + (Arguments(operands) + "\n"))
  }

  function TextAll(ws: seq<Written>): string {
    if ws == [] then "" else TextOf(ws[0]) + TextAll(ws[1..])
  }

  lemma {:induction false} TextAppend(ws: seq<Written>, w: Written)
    ensures TextAll(ws + [w]) == TextAll(ws) + TextOf(w)
  {
    hide TextOf;
    if ws == [] {
      assert [w][1..] == [] && TextOf(w) + "" == TextOf(w);
    } else {
      assert (ws + [w])[1..] == ws[1..] + [w];
      TextAppend(ws[1..], w);
      Assoc(TextOf(ws[0]), TextAll(ws[1..]), TextOf(w));
    }
  }

  /** What the assembler reads from a text. */
  function ParseText(s: string): Option<seq<Line>> {
    match Lex(s)
    case None => None
    case Some(t) => Parse(t)
  }

  // ----- a text that stands for a line -----

  predicate ReadAs(texts: seq<string>, ops: seq<Operand>) {
    |texts| == |ops| && forall k :: 0 <= k < |ops| ==> Atom(texts[k], TokenOf(ops[k]))
  }

  /** The text of `w` is a text of `line`. */
  predicate Writes(w: Written, line: Line) {
    match (w, line)
    case (WLabel(name), Label(n)) => name == n && IsIdent(name)
    case (WDirective(name, args), Directive(n, ops)) => name == n && IsLexeme(name) && ReadAs(args, ops)
    case (WOp(_, mnemonic, operands), Op(m, ops)) => mnemonic == m && IsIdent(mnemonic) && ReadAs(operands, ops)
    case _ => false
  }

  function OpTokens(ops: seq<Operand>): seq<Token> {
    if ops == [] then [] else if |ops| == 1 then [TokenOf(ops[0])] else [TokenOf(ops[0]), TComma] + OpTokens(ops[1..])
  }

  function Tokens(line: Line): seq<Token> {
    match line
    case Label(name) => [TIdent(name), TColon, TNewline]
    case Directive(name, args) => [TDirective(name)] + OpTokens(args) + [TNewline]
    case Op(mnemonic, operands) => [TIdent(mnemonic)] + OpTokens(operands) + [TNewline]
  }

  // ----- lexing a line -----

  /** Characters that are skipped, or are a token by themselves. */
  function Single(c: char): Option<Token> {
    if c == ',' then Some(TComma) else if c == ':' then Some(TColon) else if c == '\n' then Some(TNewline) else None
  }

  lemma SingleLexes(c: char, rest: string)
    requires c == ' ' || c == '\t' || c == ',' || c == ':' || c == '\n'
    ensures Lex([c] + rest) == Before(Single(c), Lex(rest))
    ensures Stops([c] + rest)
  {
    var s := [c] + rest;
    assert s[0] == c && s[1..] == rest;
  }

  lemma FrontTwo(a: seq<Token>, b: seq<Token>, rest: Option<seq<Token>>)
    ensures Front(a, Front(b, rest)) == Front(a + b, rest)
  {
    if rest.Some? {
      Assoc(a, b, rest.value);
    }
  }

  lemma BeforeIsFront(t: Token, rest: Option<seq<Token>>)
    ensures Before(Some(t), rest) == Front([t], rest)
    ensures Before(None, rest) == rest
  {
  }

  lemma {:induction false} JoinLexes(texts: seq<string>, ops: seq<Operand>, rest: string)
    requires ReadAs(texts, ops) && ops != [] && Stops(rest)
    ensures Lex(Join(texts) + rest) == Front(OpTokens(ops), Lex(rest))
    decreases |ops|
  {
    hide Lex, Atom, Stops;
    var t := TokenOf(ops[0]);
    if |ops| == 1 {
      AtomLexes(texts[0], t, rest);
      BeforeIsFront(t, Lex(rest));
    } else {
      var more := Join(texts[1..]) + rest;
      JoinLexes(texts[1..], ops[1..], rest);
      SingleLexes(' ', more);
      SingleLexes(',', [' '] + more);
      assert Join(texts) + rest == texts[0] + ([','] + ([' '] + more));
      AtomLexes(texts[0], t, [','] + ([' '] + more));
      BeforeIsFront(t, Lex([','] + ([' '] + more)));
      BeforeIsFront(TComma, Lex([' '] + more));
      FrontTwo([TComma], OpTokens(ops[1..]), Lex(rest));
      FrontTwo([t], [TComma] + OpTokens(ops[1..]), Lex(rest));
      Assoc([t], [TComma], OpTokens(ops[1..]));
      assert [t] + [TComma] == [t, TComma];
    }
  }

  /** The operands of a line and its end. */
  lemma ArgumentsLex(texts: seq<string>, ops: seq<Operand>, rest: string)
    requires ReadAs(texts, ops)
    ensures Lex(Arguments(texts) + "\n" + rest) == Front(OpTokens(ops) + [TNewline], Lex(rest))
    ensures Stops(Arguments(texts) + "\n" + rest)
  {
    hide Lex, Atom, Stops, Join, OpTokens;
    SingleLexes('\n', rest);
    BeforeIsFront(TNewline, Lex(rest));
    FrontTwo(OpTokens(ops), [TNewline], Lex(rest));
    if texts == [] {
      NoTokens();
      assert Arguments(texts) + "\n" + rest == ['\n'] + rest;
      assert [] + [TNewline] == [TNewline];
    } else {
      JoinLexes(texts, ops, ['\n'] + rest);
      SingleLexes(' ', Join(texts) + (['\n'] + rest));
      assert Arguments(texts) + "\n" + rest == [' '] + (Join(texts) + (['\n'] + rest));
    }
  }

  lemma NoTokens()
    ensures OpTokens([]) == []
  {
  }

  lemma DirectiveLexes(name: string, rest: string)
    requires IsLexeme(name) && Stops(rest)
    ensures Lex("." + name + rest) == Before(Some(TDirective(name)), Lex(rest))
  {
    hide Magnitude, Number, Run;
    var s := "." + name + rest;
    RunExtends(name, rest);
    Assoc(".", name, rest);
    assert s[0] == '.' && s[1..] == name + rest;
    assert (name + rest)[..|name|] == name && (name + rest)[|name|..] == rest;
    SliceOfSuffix(s, 1, 0, |name|);
  }

  lemma LabelLexes(name: string, rest: string)
    requires IsIdent(name)
    ensures Lex(name + (":" + "\n") + rest) == Front([TIdent(name), TColon, TNewline], Lex(rest))
  {
    hide Lex, Atom, Stops, IsIdent;
    SingleLexes('\n', rest);
    SingleLexes(':', ['\n'] + rest);
    IdentAtom(name);
    AtomLexes(name, TIdent(name), [':'] + (['\n'] + rest));
    assert name + (":" + "\n") + rest == name + ([':'] + (['\n'] + rest));
    LabelTokens(name, Lex(rest));
  }

  lemma DirectiveLineLexes(name: string, args: seq<string>, ops: seq<Operand>, rest: string)
    requires IsLexeme(name) && ReadAs(args, ops)
    ensures Lex("." + (name + (Arguments(args) + "\n")) + rest)
         == Front([TDirective(name)] + OpTokens(ops) + [TNewline], Lex(rest))
  {
    hide Lex, Atom, Stops, OpTokens, Arguments, IsLexeme;
    var tail := Arguments(args) + "\n" + rest;
    ArgumentsLex(args, ops, rest);
    DirectiveLexes(name, tail);
    assert "." + (name + (Arguments(args) + "\n")) + rest == "." + name + tail;
    HeadTokens(TDirective(name), OpTokens(ops), Lex(rest));
  }

  lemma OpBodyLexes(mnemonic: string, texts: seq<string>, ops: seq<Operand>, rest: string)
    requires IsIdent(mnemonic) && ReadAs(texts, ops)
    ensures Lex(mnemonic + (Arguments(texts) + "\n" + rest))
         == Front([TIdent(mnemonic)] + OpTokens(ops) + [TNewline], Lex(rest))
  {
    hide Lex, Atom, Stops, OpTokens, Arguments, IsIdent;
    var tail := Arguments(texts) + "\n" + rest;
    ArgumentsLex(texts, ops, rest);
    IdentAtom(mnemonic);
    AtomLexes(mnemonic, TIdent(mnemonic), tail);
    HeadTokens(TIdent(mnemonic), OpTokens(ops), Lex(rest));
  }

  lemma OpLineLexes(tab: bool, mnemonic: string, texts: seq<string>, ops: seq<Operand>, rest: string)
    requires IsIdent(mnemonic) && ReadAs(texts, ops)
    ensures Lex(TextOf(WOp(tab, mnemonic, texts)) + rest)
         == Front([TIdent(mnemonic)] + OpTokens(ops) + [TNewline], Lex(rest))
  {
    hide Lex, Atom, Stops, OpTokens, Arguments, IsIdent, ReadAs, Front;
    var line := Arguments(texts) + "\n";
    var body := mnemonic + (line + rest);
    OpBodyLexes(mnemonic, texts, ops, rest);
    SingleLexes('\t', body);
    BeforeIsFront(TNewline, Lex(body));
    Assoc(mnemonic, line, rest);
    Assoc("\t", mnemonic + line, rest);
    assert "" + (mnemonic + line) == mnemonic + line;
  }

  lemma LineLexes(w: Written, line: Line, rest: string)
    requires Writes(w, line)
    ensures Lex(TextOf(w) + rest) == Front(Tokens(line), Lex(rest))
  {
    hide Lex, OpTokens, Arguments, IsIdent, IsLexeme, ReadAs;
    match w
    case WLabel(name) => LabelLexes(name, rest);
    case WDirective(name, args) => DirectiveLineLexes(name, args, line.args, rest);
    case WOp(tab, mnemonic, operands) => OpLineLexes(tab, mnemonic, operands, line.operands, rest);
  }

  lemma LabelTokens(name: string, rest: Option<seq<Token>>)
    ensures Before(Some(TIdent(name)), Before(Some(TColon), Before(Some(TNewline), rest)))
         == Front([TIdent(name), TColon, TNewline], rest)
  {
    if rest.Some? {
      var a, b, c := [TIdent(name)], [TColon], [TNewline];
      assert a + (b + (c + rest.value)) == [TIdent(name), TColon, TNewline] + rest.value;
    }
  }

  lemma HeadTokens(head: Token, ops: seq<Token>, rest: Option<seq<Token>>)
    ensures Before(Some(head), Front(ops + [TNewline], rest)) == Front([head] + ops + [TNewline], rest)
  {
    if rest.Some? {
      assert [head] + (ops + [TNewline] + rest.value) == [head] + ops + [TNewline] + rest.value;
    }
  }

  // ----- parsing a line -----

  lemma CommaParses(op: Operand, t: seq<Token>)
    requires Terminated(t) && !EndsLine(t[0])
    ensures OperandList([TokenOf(op), TComma] + t) == Prefixed([op], OperandList(t))
  {
    var s := [TokenOf(op), TComma] + t;
    assert s[2..] == t && s[2] == t[0];
  }

  lemma LastParses(op: Operand, t: seq<Token>)
    requires Terminated(t)
    ensures OperandList([TokenOf(op), TNewline] + t) == Some(Operands([op], [TNewline] + t))
  {
    var s := [TokenOf(op), TNewline] + t;
    assert s[1..] == [TNewline] + t;
  }

  lemma TerminatedAfter(front: seq<Token>, t: seq<Token>)
    requires Terminated(t)
    ensures Terminated(front + t)
  {
  }

  lemma {:induction false} OpTokensParse(ops: seq<Operand>, t: seq<Token>)
    requires ops != [] && Terminated(t)
    ensures var s := OpTokens(ops) + ([TNewline] + t);
            Terminated(s) && !EndsLine(s[0]) && OperandList(s) == Some(Operands(ops, [TNewline] + t))
    decreases |ops|
  {
    hide OperandList, Terminated;
    var end := [TNewline] + t;
    TerminatedAfter([TNewline], t);
    TerminatedAfter(OpTokens(ops), end);
    if |ops| == 1 {
      LastParses(ops[0], t);
      assert ops == [ops[0]];
      Assoc([TokenOf(ops[0])], [TNewline], t);
      assert [TokenOf(ops[0])] + [TNewline] == [TokenOf(ops[0]), TNewline];
    } else {
      OpTokensParse(ops[1..], t);
      CommaParses(ops[0], OpTokens(ops[1..]) + end);
      Assoc([TokenOf(ops[0]), TComma], OpTokens(ops[1..]), end);
      assert [ops[0]] + ops[1..] == ops;
    }
  }

  lemma ArgumentsParse(ops: seq<Operand>, t: seq<Token>)
    requires Terminated(t)
    ensures var s := OpTokens(ops) + ([TNewline] + t);
            && Terminated(s) && s[0] != TColon
            && ParseOperands(s) == Some(Operands(ops, [TNewline] + t))
  {
    var s := OpTokens(ops) + ([TNewline] + t);
    if ops == [] {
      assert s == [TNewline] + t;
    } else {
      OpTokensParse(ops, t);
      assert s[0] == TokenOf(ops[0]);
    }
  }

  lemma NewlineParses(t: seq<Token>)
    requires Terminated(t)
    ensures Parse([TNewline] + t) == Parse(t)
  {
    assert ([TNewline] + t)[1..] == t;
  }

  /** A line that opens with its mnemonic or its directive. */
  lemma HeadParses(head: Token, ops: seq<Operand>, t: seq<Token>)
    requires Terminated(t) && (head.TIdent? || head.TDirective?)
    ensures var s := [head] + OpTokens(ops) + [TNewline] + t;
            && Terminated(s)
            && Parse(s) == Then(if head.TIdent? then Op(head.name, ops) else Directive(head.name, ops), Parse(t))
  {
    hide OpTokens, ParseOperands;
    var args := OpTokens(ops) + ([TNewline] + t);
    var s := [head] + OpTokens(ops) + [TNewline] + t;
    ArgumentsParse(ops, t);
    NewlineParses(t);
    assert s == [head] + args;
    assert s[1..] == args && s[1] == args[0];
  }

  lemma LabelParses(name: string, t: seq<Token>)
    requires Terminated(t)
    ensures var s := [TIdent(name), TColon, TNewline] + t;
            Terminated(s) && Parse(s) == Then(Label(name), Parse(t))
  {
    var s := [TIdent(name), TColon, TNewline] + t;
    NewlineParses(t);
    assert s[2..] == [TNewline] + t;
  }

  lemma LineParses(line: Line, t: seq<Token>)
    requires Terminated(t)
    ensures Terminated(Tokens(line) + t) && Parse(Tokens(line) + t) == Then(line, Parse(t))
  {
    hide OpTokens, Parse;
    match line
    case Label(name) => LabelParses(name, t);
    case Directive(name, args) => HeadParses(TDirective(name), args, t);
    case Op(mnemonic, operands) => HeadParses(TIdent(mnemonic), operands, t);
  }

  // ----- whole texts -----

  ghost predicate AllWrite(ws: seq<Written>, lines: seq<Line>) {
    |ws| == |lines| && forall k :: 0 <= k < |lines| ==> Writes(ws[k], lines[k])
  }

  /** Any text of any lines is read back as exactly those lines. */
  lemma {:induction false} TextParses(ws: seq<Written>, lines: seq<Line>)
    requires AllWrite(ws, lines)
    ensures Lex(TextAll(ws)).Some? && ParseText(TextAll(ws)) == Some(lines)
    decreases |ws|
  {
    hide TextOf, Tokens, Writes, Step;
    if ws != [] {
      TextParses(ws[1..], lines[1..]);
      LineLexes(ws[0], lines[0], TextAll(ws[1..]));
      LineParses(lines[0], Lex(TextAll(ws[1..])).value);
      assert [lines[0]] + lines[1..] == lines;
    }
  }

  // ----- lines copied from the source -----

  /** What the words of a copied line stand for. */
  function ReadAll(texts: seq<Lexeme>): (ops: seq<Operand>)
    ensures |ops| == |texts|
    ensures forall k :: 0 <= k < |texts| ==> ops[k] == ReadOperand(texts[k])
  {
    if texts == [] then [] else [ReadOperand(texts[0])] + ReadAll(texts[1..])
  }

  predicate AllReadable(texts: seq<Lexeme>) { forall k :: 0 <= k < |texts| ==> Readable(texts[k]) }

  lemma ReadableReads(texts: seq<Lexeme>)
    requires AllReadable(texts)
    ensures ReadAs(texts, ReadAll(texts))
  {
    hide Atom, Readable, ReadOperand;
    forall k | 0 <= k < |texts| ensures Atom(texts[k], TokenOf(ReadAll(texts)[k])) {
      ReadableAtom(texts[k]);
    }
  }

  /** One word that cannot be read leaves the whole operand list without tokens. */
  lemma {:induction false} JoinUnreadable(texts: seq<Lexeme>, rest: string)
    requires !AllReadable(texts) && Stops(rest)
    ensures Lex(Join(texts) + rest) == None
    decreases |texts|
  {
    hide Lex, Stops, Readable, ReadOperand;
    if |texts| == 1 {
      UnreadableLexes(texts[0], rest);
    } else {
      var more := Join(texts[1..]) + rest;
      var tail := [','] + ([' '] + more);
      SingleLexes(' ', more);
      SingleLexes(',', [' '] + more);
      assert Join(texts) + rest == texts[0] + tail;
      if Readable(texts[0]) {
        assert !AllReadable(texts[1..]) by { LaterUnreadable(texts); }
        JoinUnreadable(texts[1..], rest);
        ReadableAtom(texts[0]);
        AtomLexes(texts[0], TokenOf(ReadOperand(texts[0])), tail);
      } else {
        UnreadableLexes(texts[0], tail);
      }
    }
  }

  lemma LaterUnreadable(texts: seq<Lexeme>)
    requires !AllReadable(texts) && Readable(texts[0])
    ensures !AllReadable(texts[1..])
  {
    hide Readable;
    var k :| 0 <= k < |texts| && !Readable(texts[k]);
    assert texts[1..][k - 1] == texts[k];
  }

  /** A copied line with such a word. */
  predicate Garbled(w: Written) {
    && w.WOp? && w.tab && IsIdent(w.mnemonic) && (forall k :: 0 <= k < |w.operands| ==> IsLexeme(w.operands[k]))
    && !AllReadable(w.operands)
  }

  lemma GarbledLexes(w: Written, rest: string)
    requires Garbled(w)
    ensures Lex(TextOf(w) + rest) == None
  {
    hide Lex, Atom, Stops, IsIdent, Join, Readable;
    var texts: seq<Lexeme> := w.operands;
    var list := Join(texts) + (['\n'] + rest);
    SingleLexes('\n', rest);
    JoinUnreadable(texts, ['\n'] + rest);
    SingleLexes(' ', list);
    IdentAtom(w.mnemonic);
    AtomLexes(w.mnemonic, TIdent(w.mnemonic), [' '] + list);
    SingleLexes('\t', w.mnemonic + ([' '] + list));
    assert TextOf(w) + rest == ['\t'] + (w.mnemonic + ([' '] + list));
  }

  /** One such line anywhere leaves the whole text without tokens. */
  lemma {:induction false} TextFails(ws: seq<Written>, lines: seq<Line>)
    requires |ws| == |lines| && forall k :: 0 <= k < |ws| ==> Garbled(ws[k]) || Writes(ws[k], lines[k])
    requires exists k :: 0 <= k < |ws| && Garbled(ws[k])
    ensures Lex(TextAll(ws)) == None
    decreases |ws|
  {
    hide TextOf, Tokens, Writes, Garbled, Lex;
    if Garbled(ws[0]) {
      GarbledLexes(ws[0], TextAll(ws[1..]));
    } else {
      var k :| 0 <= k < |ws| && Garbled(ws[k]);
      assert Garbled(ws[1..][k - 1]);
      TextFails(ws[1..], lines[1..]);
      LineLexes(ws[0], lines[0], TextAll(ws[1..]));
    }
  }

  // ----- the text the compiler writes -----

  /** An operand the language can spell; the least 64-bit number has no spelling. */
  predicate Spellable(op: Operand) {
    if op.Ident? then IsIdent(op.name) else op.n > -0x8000_0000_0000_0000
  }

  /** Bytes in hexadecimal if asked, every other number in decimal. */
  function Spell(op: Operand, hex: bool): string {
    match op
    case Ident(name) => name
    case Num(n) => if hex && 0 <= n <= 255 then Hex(n) else Decimal(n)
  }

  function SpellAll(ops: seq<Operand>, hex: bool): (texts: seq<string>)
    ensures |texts| == |ops|
    ensures forall k :: 0 <= k < |ops| ==> texts[k] == Spell(ops[k], hex)
  {
    if ops == [] then [] else [Spell(ops[0], hex)] + SpellAll(ops[1..], hex)
  }

  lemma SpellAtom(op: Operand, hex: bool)
    requires Spellable(op)
    ensures Atom(Spell(op, hex), TokenOf(op))
  {
    hide Atom, Hex, Decimal;
    match op
    case Ident(name) => IdentAtom(name);
    case Num(n) =>
      if hex && 0 <= n <= 255 {
        HexAtom(n);
      } else {
        DecimalAtom(n);
      }
  }

  predicate AllSpellable(ops: seq<Operand>) { forall k :: 0 <= k < |ops| ==> Spellable(ops[k]) }

  predicate Printable(line: Line) {
    match line
    case Label(name) => IsIdent(name)
    case Directive(name, args) => IsLexeme(name) && AllSpellable(args)
    case Op(mnemonic, operands) => IsIdent(mnemonic) && AllSpellable(operands)
  }

  function Write(line: Line, hex: bool): Written {
    match line
    case Label(name) => WLabel(name)
    case Directive(name, args) => WDirective(name, SpellAll(args, hex))
    case Op(mnemonic, operands) => WOp(hex, mnemonic, SpellAll(operands, hex))
  }

  function WriteAll(lines: seq<Line>, hex: bool): (ws: seq<Written>)
    ensures |ws| == |lines|
    ensures forall k :: 0 <= k < |lines| ==> ws[k] == Write(lines[k], hex)
  {
    if lines == [] then [] else [Write(lines[0], hex)] + WriteAll(lines[1..], hex)
  }

  lemma WriteNone(hex: bool)
    ensures WriteAll([], hex) == []
  {
  }

  lemma WriteTwo(a: Line, b: Line, rest: seq<Line>, hex: bool)
    ensures WriteAll([a, b] + rest, hex) == [Write(a, hex), Write(b, hex)] + WriteAll(rest, hex)
  {
    hide Write;
  }

  lemma SpellAllReads(ops: seq<Operand>, hex: bool)
    requires AllSpellable(ops)
    ensures ReadAs(SpellAll(ops, hex), ops)
  {
    hide Atom, Spell, Spellable;
    forall k | 0 <= k < |ops| ensures Atom(SpellAll(ops, hex)[k], TokenOf(ops[k])) {
      assert Spellable(ops[k]);
      SpellAtom(ops[k], hex);
    }
  }

  /** Printing and reading undo each other on every list of printable lines. */
  lemma PrintParses(lines: seq<Line>, hex: bool)
    requires forall k :: 0 <= k < |lines| ==> Printable(lines[k])
    ensures ParseText(TextAll(WriteAll(lines, hex))) == Some(lines)
  {
    hide ReadAs, SpellAll, TextAll, ParseText, AllSpellable, IsIdent, IsLexeme;
    var ws := WriteAll(lines, hex);
    forall k | 0 <= k < |lines| ensures Writes(ws[k], lines[k]) {
      assert Printable(lines[k]);
      match lines[k]
      case Label(_) =>
      case Directive(_, args) => SpellAllReads(args, hex);
      case Op(_, operands) => SpellAllReads(operands, hex);
    }
    TextParses(ws, lines);
  }
}
