/** Which tokens are which lines. */
module Grammar {
  import opened Prelude
  import opened Asm
  import opened Lexer
  import opened Parser
  import opened Printer

  function Newlines(n: nat): seq<Token> { if n == 0 then [] else [TNewline] + Newlines(n - 1) }

  /** A line without its end. */
  function Head(line: Line): seq<Token> {
    match line
    case Label(name) => [TIdent(name), TColon]
    case Directive(name, args) => [TDirective(name)] + OpTokens(args)
    case Op(mnemonic, operands) => [TIdent(mnemonic)] + OpTokens(operands)
  }

  /** The lines, `gaps[k]` newlines before line `k` and the last gap at the end. */
  function Rows(lines: seq<Line>, gaps: seq<nat>): seq<Token>
    requires |gaps| == |lines| + 1
    decreases |lines|, 1
  {
    Newlines(gaps[0]) + Started(lines, gaps[1..])
  }

  /** The same from the first line on. */
  function Started(lines: seq<Line>, gaps: seq<nat>): seq<Token>
    requires |gaps| == |lines|
    decreases |lines|, 0
  {
    if lines == [] then [] else Head(lines[0]) + Rows(lines[1..], gaps)
  }

  /** Only after a label may a line follow on the same line. */
  predicate Separated(lines: seq<Line>, gaps: seq<nat>) {
    |gaps| == |lines| + 1 && forall k :: 0 <= k < |lines| - 1 && !lines[k].Label? ==> gaps[k + 1] >= 1
  }

  predicate Spells(t: seq<Token>, lines: seq<Line>, gaps: seq<nat>) {
    Separated(lines, gaps) && t == Rows(lines, gaps) + [TEof]
  }

  // ----- operands -----

  lemma {:induction false} OperandListIs(t: seq<Token>)
    requires Terminated(t) && !EndsLine(t[0]) && OperandList(t).Some?
    ensures var o := OperandList(t).value;
            o.ops != [] && t == OpTokens(o.ops) + o.rest && EndsLine(o.rest[0])
    decreases |t|
  {
    var o := OperandList(t).value;
    if EndsLine(t[1]) {
      assert OpTokens(o.ops) == [t[0]];
      assert t == [t[0]] + t[1..];
    } else {
      OperandListIs(t[2..]);
      var more := OperandList(t[2..]).value;
      assert o.ops[1..] == more.ops && o.rest == more.rest;
      assert OpTokens(o.ops) == [t[0], TComma] + OpTokens(more.ops);
      assert t == [t[0], TComma] + t[2..];
      Assoc([t[0], TComma], OpTokens(more.ops), more.rest);
    }
  }

  lemma OperandsAre(t: seq<Token>)
    requires Terminated(t) && ParseOperands(t).Some?
    ensures var o := ParseOperands(t).value;
            t == OpTokens(o.ops) + o.rest && EndsLine(o.rest[0])
  {
    hide OperandList;
    if EndsLine(t[0]) {
      assert [] + t == t;
    } else {
      OperandListIs(t);
    }
  }

  lemma LastTaken(op: Operand, r: seq<Token>)
    requires Terminated(r) && EndsLine(r[0])
    ensures var s := [TokenOf(op)] + r; Terminated(s) && OperandList(s) == Some(Operands([op], r))
  {
    var s := [TokenOf(op)] + r;
    assert s[1..] == r && s[1] == r[0];
  }

  lemma {:induction false} ListTaken(ops: seq<Operand>, r: seq<Token>)
    requires ops != [] && Terminated(r) && EndsLine(r[0])
    ensures var s := OpTokens(ops) + r;
            Terminated(s) && !EndsLine(s[0]) && s[0] != TColon && OperandList(s) == Some(Operands(ops, r))
    decreases |ops|
  {
    hide OperandList, Terminated;
    TerminatedAfter(OpTokens(ops), r);
    if |ops| == 1 {
      LastTaken(ops[0], r);
      assert ops == [ops[0]];
    } else {
      ListTaken(ops[1..], r);
      CommaParses(ops[0], OpTokens(ops[1..]) + r);
      Assoc([TokenOf(ops[0]), TComma], OpTokens(ops[1..]), r);
      assert [ops[0]] + ops[1..] == ops;
    }
  }

  lemma OperandsTaken(ops: seq<Operand>, r: seq<Token>)
    requires Terminated(r) && EndsLine(r[0])
    ensures var s := OpTokens(ops) + r;
            Terminated(s) && s[0] != TColon && ParseOperands(s) == Some(Operands(ops, r))
  {
    hide OperandList;
    if ops == [] {
      assert OpTokens(ops) + r == r;
    } else {
      ListTaken(ops, r);
    }
  }

  // ----- lines -----

  lemma AllNewlines(n: nat)
    ensures |Newlines(n)| == n && forall k :: 0 <= k < n ==> Newlines(n)[k] == TNewline
  {
  }

  /** One newline less before the first line. */
  lemma OneLess(lines: seq<Line>, gaps: seq<nat>)
    requires |gaps| == |lines| + 1 && gaps[0] > 0
    ensures Rows(lines, gaps) == [TNewline] + Rows(lines, [gaps[0] - 1] + gaps[1..])
  {
    hide Started;
    var fewer := [gaps[0] - 1] + gaps[1..];
    assert fewer[1..] == gaps[1..];
    Assoc([TNewline], Newlines(gaps[0] - 1), Started(lines, gaps[1..]));
  }

  lemma NoneBefore(lines: seq<Line>, gaps: seq<nat>)
    requires |gaps| == |lines| + 1 && gaps[0] == 0
    ensures Rows(lines, gaps) == if lines == [] then [] else Head(lines[0]) + Rows(lines[1..], gaps[1..])
  {
    hide Head;
    assert Newlines(0) + Started(lines, gaps[1..]) == Started(lines, gaps[1..]);
  }

  /** A text that starts with a newline, or is over, ends the line before it. */
  lemma EndsBefore(lines: seq<Line>, gaps: seq<nat>)
    requires |gaps| == |lines| + 1
    ensures EndsLine((Rows(lines, gaps) + [TEof])[0]) <==> lines == [] || gaps[0] > 0
  {
    AllNewlines(gaps[0]);
    if gaps[0] > 0 {
      assert Rows(lines, gaps)[0] == TNewline;
    } else if lines != [] {
      assert Rows(lines, gaps)[0] == Head(lines[0])[0];
    }
  }

  lemma RowsTerminated(lines: seq<Line>, gaps: seq<nat>)
    requires |gaps| == |lines| + 1
    ensures Terminated(Rows(lines, gaps) + [TEof])
  {
  }

  lemma FirstLine(line: Line, r: seq<Token>)
    requires Terminated(r) && (line.Label? || EndsLine(r[0]))
    ensures Terminated(Head(line) + r) && Parse(Head(line) + r) == Then(line, Parse(r))
  {
    hide OpTokens, ParseOperands, Terminated;
    var t := Head(line) + r;
    TerminatedAfter(Head(line), r);
    match line
    case Label(name) => assert t[0] == TIdent(name) && t[1] == TColon && t[2..] == r;
    case Directive(name, args) =>
      OperandsTaken(args, r);
      assert t[0] == TDirective(name) && t[1..] == OpTokens(args) + r;
    case Op(mnemonic, operands) =>
      OperandsTaken(operands, r);
      assert t[0] == TIdent(mnemonic) && t[1..] == OpTokens(operands) + r;
      assert t[1] == t[1..][0];
  }

  lemma {:induction false} SpelledParses(lines: seq<Line>, gaps: seq<nat>)
    requires Separated(lines, gaps)
    ensures Terminated(Rows(lines, gaps) + [TEof]) && Parse(Rows(lines, gaps) + [TEof]) == Some(lines)
    decreases |lines|, if |gaps| > 0 then gaps[0] else 0
  {
    hide Parse, Head;
    RowsTerminated(lines, gaps);
    var t := Rows(lines, gaps) + [TEof];
    if gaps[0] > 0 {
      var fewer := [gaps[0] - 1] + gaps[1..];
      OneLess(lines, gaps);
      SpelledParses(lines, fewer);
      Assoc([TNewline], Rows(lines, fewer), [TEof]);
      NewlineParses(Rows(lines, fewer) + [TEof]);
    } else if lines == [] {
      NoneBefore(lines, gaps);
      assert t == [TEof];
      OnlyEnd();
    } else {
      NoneBefore(lines, gaps);
      var r := Rows(lines[1..], gaps[1..]) + [TEof];
      SpelledParses(lines[1..], gaps[1..]);
      EndsBefore(lines[1..], gaps[1..]);
      assert t == Head(lines[0]) + r;
      FirstLine(lines[0], r);
      assert [lines[0]] + lines[1..] == lines;
    }
  }

  lemma OnlyEnd()
    ensures Parse([TEof]) == Some([])
  {
  }

  /** The end is at the end only, as the lexer leaves it. */
  predicate OneEnd(t: seq<Token>) { Terminated(t) && forall k :: 0 <= k < |t| - 1 ==> t[k] != TEof }

  lemma {:induction false} LexEnds(s: string)
    requires Lex(s).Some?
    ensures OneEnd(Lex(s).value)
    decreases |s|
  {
    hide Step;
    if s != [] {
      var p := Step(s).value;
      LexEnds(s[p.size..]);
      NoEndToken(s);
    }
  }

  lemma NoEndToken(s: string)
    requires s != [] && Step(s).Some?
    ensures Step(s).value.token != Some(TEof)
  {
    hide Run, Comment, Number;
  }

  lemma LaterEnd(t: seq<Token>, front: seq<Token>, r: seq<Token>)
    requires OneEnd(t) && t == front + r && r != []
    ensures OneEnd(r)
  {
    assert forall k :: 0 <= k < |r| ==> r[k] == t[|front| + k];
  }

  /** How the tokens split at the first line. */
  lemma FirstParsed(t: seq<Token>) returns (line: Line, r: seq<Token>)
    requires Terminated(t) && Parse(t).Some? && !EndsLine(t[0])
    ensures t == Head(line) + r && Terminated(r) && |r| < |t| && (line.Label? || EndsLine(r[0]))
    ensures Parse(t) == Then(line, Parse(r))
  {
    hide ParseOperands, OpTokens;
    match t[0]
    case TIdent(name) =>
      if t[1] == TColon {
        line, r := Label(name), t[2..];
        assert t == [TIdent(name), TColon] + r;
      } else {
        OperandsAre(t[1..]);
        var o := ParseOperands(t[1..]).value;
        line, r := Op(name, o.ops), o.rest;
        assert t == [TIdent(name)] + t[1..];
        Assoc([TIdent(name)], OpTokens(o.ops), r);
      }
    case TDirective(name) =>
      OperandsAre(t[1..]);
      var o := ParseOperands(t[1..]).value;
      line, r := Directive(name, o.ops), o.rest;
      assert t == [TDirective(name)] + t[1..];
      Assoc([TDirective(name)], OpTokens(o.ops), r);
  }

  lemma {:induction false} ParsedSpells(t: seq<Token>) returns (gaps: seq<nat>)
    requires OneEnd(t) && Parse(t).Some?
    ensures Spells(t, Parse(t).value, gaps)
    decreases |t|
  {
    if t[0] == TEof {
      assert t == [TEof];
      gaps := [0];
      assert Rows([], gaps) == [];
    } else if t[0] == TNewline {
      assert t == [TNewline] + t[1..];
      LaterEnd(t, [TNewline], t[1..]);
      var fewer := ParsedSpells(t[1..]);
      gaps := [fewer[0] + 1] + fewer[1..];
      var lines := Parse(t).value;
      assert [gaps[0] - 1] + gaps[1..] == fewer;
      OneLess(lines, gaps);
      Assoc([TNewline], Rows(lines, fewer), [TEof]);
    } else {
      gaps := LineSpells(t);
    }
  }

  lemma {:induction false} LineSpells(t: seq<Token>) returns (gaps: seq<nat>)
    requires OneEnd(t) && Parse(t).Some? && !EndsLine(t[0])
    ensures Spells(t, Parse(t).value, gaps)
    decreases |t|, 0
  {
    hide Parse, Head, Rows;
    var line, r := FirstParsed(t);
    LaterEnd(t, Head(line), r);
    var more := ParsedSpells(r);
    var rest := Parse(r).value;
    gaps := [0] + more;
    var lines := [line] + rest;
    assert lines[1..] == rest && gaps[1..] == more;
    NoneBefore(lines, gaps);
    Assoc(Head(line), Rows(rest, more), [TEof]);
    EndsBefore(rest, more);
    forall k | 0 <= k < |lines| - 1 && !lines[k].Label? ensures gaps[k + 1] >= 1 {
      if k > 0 {
        assert lines[k] == rest[k - 1];
      }
    }
  }

  /**
   * Tokens are a program exactly when they are its lines in order, with any number of newlines
   * between them and around them, and at least one between a line that is no label and the next.
   */
  lemma ParseIff(t: seq<Token>, lines: seq<Line>)
    requires OneEnd(t)
    ensures Parse(t) == Some(lines) <==> exists gaps :: Spells(t, lines, gaps)
  {
    hide Parse, Rows;
    if Parse(t) == Some(lines) {
      var gaps := ParsedSpells(t);
    } else if gaps :| Spells(t, lines, gaps) {
      SpelledParses(lines, gaps);
    }
  }
}
