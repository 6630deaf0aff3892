/** Assembler text to tokens. */
module Lexer {
  import opened Prelude
  import opened Text
  import opened Asm

  datatype Token =
    | TIdent(name: string)
    | TNum(n: i64)
    | TDirective(name: string)
    | TComma
    | TColon
    | TNewline
    | TEof

  /** How many characters from the front can continue an identifier. */
  function Run(s: string): (n: nat)
    ensures n <= |s|
    ensures forall k :: 0 <= k < n ==> IsContinue(s[k])
    ensures n < |s| ==> !IsContinue(s[n])
  {
    if s == [] || !IsContinue(s[0]) then 0 else 1 + Run(s[1..])
  }

  /** How many characters from the front belong to a comment. */
  function Comment(s: string): (n: nat)
    ensures n <= |s|
  {
    if s == [] || s[0] == '\n' then 0 else 1 + Comment(s[1..])
  }

  // ----- numbers -----

  function Radix(s: string): nat {
    if "0x" <= s || "0X" <= s then 16 else if "0b" <= s || "0B" <= s then 2 else 10
  }

  /** A token, if the step makes one, and the number of characters it takes. */
  datatype Piece = Piece(token: Option<Token>, size: nat)

  /** A number: sign, radix prefix and digits. */
  function Number(s: string): (r: Option<Piece>)
    requires s != []
    ensures r.Some? ==> 1 <= r.value.size <= |s| && r.value.token.Some? && r.value.token.value.TNum?
  {
    var sign := if s[0] == '-' then 1 else 0;
    var radix := Radix(s[sign..]);
    var start := if radix == 10 then sign else sign + 2;
    var digits := s[start..start + Run(s[start..])];
    if digits == [] then None else
    match Magnitude(digits, radix)
    case None => None
    case Some(mag) =>
      if mag > 0x7FFF_FFFF_FFFF_FFFF then None
      else Some(Piece(Some(TNum(if sign == 1 then 0 - mag as int else mag)), start + |digits|))
  }

  function Step(s: string): (r: Option<Piece>)
    requires s != []
    ensures r.Some? ==> 1 <= r.value.size <= |s|
  {
    var c := s[0];
    if c == ' ' || c == '\t' || c == '\r' then Some(Piece(None, 1))
    else if c == '#' || c == ';' then Some(Piece(None, 1 + Comment(s[1..])))
    else if c == '\n' then Some(Piece(Some(TNewline), 1))
    else if c == ',' then Some(Piece(Some(TComma), 1))
    else if c == ':' then Some(Piece(Some(TColon), 1))
    else if c == '.' then
      var n := Run(s[1..]);
      if n == 0 then None else Some(Piece(Some(TDirective(s[1..1 + n])), 1 + n))
    else if c == '-' || IsDigit(c) then Number(s)
    else if IsStart(c) then Some(Piece(Some(TIdent(s[..Run(s)])), Run(s)))
    else None
  }

  /** The tokens of a text, or nothing if a character or a number is malformed. */
  function Lex(s: string): (r: Option<seq<Token>>)
    ensures r.Some? ==> r.value != [] && r.value[|r.value| - 1] == TEof
    decreases |s|
  {
    if s == [] then Some([TEof]) else
    match Step(s)
    case None => None
    case Some(p) => Before(p.token, Lex(s[p.size..]))
  }

  function Before(token: Option<Token>, rest: Option<seq<Token>>): (r: Option<seq<Token>>)
    ensures r.Some? ==> rest.Some? && |r.value| >= |rest.value|
  {
    match (token, rest)
    case (Some(t), Some(ts)) => Some([t] + ts)
    case _ => rest
  }

  function Front(tokens: seq<Token>, rest: Option<seq<Token>>): Option<seq<Token>> {
    match rest
    case None => None
    case Some(ts) => Some(tokens + ts)
  }

  // ----- the lexer as the program runs it -----

  method ScanRun(s: string, from: nat) returns (end: nat)
    requires from <= |s|
    ensures end == from + Run(s[from..])
  {
    end := from;
    while end < |s| && IsContinue(s[end])
      invariant from <= end <= |s|
      invariant from + Run(s[from..]) == end + Run(s[end..])
    {
      assert s[end..][1..] == s[end + 1..];
      end := end + 1;
    }
  }

  method ScanComment(s: string, from: nat) returns (end: nat)
    requires from <= |s|
    ensures end == from + Comment(s[from..])
  {
    end := from;
    while end < |s| && s[end] != '\n'
      invariant from <= end <= |s|
      invariant from + Comment(s[from..]) == end + Comment(s[end..])
    {
      assert s[end..][1..] == s[end + 1..];
      end := end + 1;
    }
  }

  /** One turn of the loop: what the text from `i` on starts with. */
  method ScanOne(s: string, i: nat) returns (r: Option<Piece>)
    requires i < |s|
    ensures r == Step(s[i..])
  {
    hide Run, Comment, Magnitude;
    var c := s[i];
    assert s[i..][0] == c && s[i..][1..] == s[i + 1..];
    if c == ' ' || c == '\t' || c == '\r' {
      return Some(Piece(None, 1));
    } else if c == '#' || c == ';' {
      var end := ScanComment(s, i + 1);
      return Some(Piece(None, end - i));
    } else if c == '\n' {
      return Some(Piece(Some(TNewline), 1));
    } else if c == ',' {
      return Some(Piece(Some(TComma), 1));
    } else if c == ':' {
      return Some(Piece(Some(TColon), 1));
    } else if c == '.' {
      var end := ScanRun(s, i + 1);
      if end == i + 1 { return None; }
      assert s[i..][1..1 + (end - i - 1)] == s[i + 1..end];
      return Some(Piece(Some(TDirective(s[i + 1..end])), end - i));
    } else if c == '-' || IsDigit(c) {
      r := ScanNumber(s, i);
    } else if IsStart(c) {
      var end := ScanRun(s, i);
      assert s[i..][..end - i] == s[i..end];
      return Some(Piece(Some(TIdent(s[i..end])), end - i));
    } else {
      return None;
    }
  }

  method ScanNumber(s: string, i: nat) returns (r: Option<Piece>)
    requires i < |s|
    ensures r == Number(s[i..])
  {
    hide Run, Magnitude, Radix;
    var sign := if s[i] == '-' then 1 else 0;
    assert s[i..][sign..] == s[i + sign..];
    var radix := Radix(s[i + sign..]);
    RadixPrefix(s[i + sign..]);
    var start := if radix == 10 then i + sign else i + sign + 2;
    assert s[i..][start - i..] == s[start..];
    var end := ScanRun(s, start);
    if end == start { return None; }
    SliceOfSuffix(s, i, start - i, end - i);
    match Magnitude(s[start..end], radix) {
      case None => return None;
      case Some(mag) =>
        if mag > 0x7FFF_FFFF_FFFF_FFFF { return None; }
        return Some(Piece(Some(TNum(if sign == 1 then 0 - mag as int else mag)), end - i));
    }
  }

  lemma RadixPrefix(s: string)
    ensures Radix(s) != 10 ==> |s| >= 2
  {
  }

  method LexLoop(source: string) returns (r: Option<seq<Token>>)
    ensures r == Lex(source)
  {
    hide Step;
    var toks: seq<Token> := [];
    var i := 0;
    assert source[0..] == source;
    FrontNone(Lex(source));
    while i < |source|
      invariant 0 <= i <= |source|
      invariant Front(toks, Lex(source[i..])) == Lex(source)
      decreases |source| - i
    {
      var p := ScanOne(source, i);
      if p.None? { return None; }
      assert source[i..][p.value.size..] == source[i + p.value.size..];
      FrontBefore(toks, p.value.token, Lex(source[i + p.value.size..]));
      if p.value.token.Some? {
        toks := toks + [p.value.token.value];
      }
      i := i + p.value.size;
    }
    r := Some(toks + [TEof]);
  }

  lemma FrontNone(r: Option<seq<Token>>)
    ensures Front([], r) == r
  {
    if r.Some? {
      assert [] + r.value == r.value;
    }
  }

  lemma FrontBefore(toks: seq<Token>, token: Option<Token>, rest: Option<seq<Token>>)
    ensures Front(toks, Before(token, rest)) == Front(if token.Some? then toks + [token.value] else toks, rest)
  {
    if token.Some? && rest.Some? {
      Assoc(toks, [token.value], rest.value);
    }
  }

  // ----- texts that are one token -----

  /** `text` is one identifier or one number, all of it. */
  predicate Atom(text: string, token: Token) {
    && text != []
    && (forall k :: 1 <= k < |text| ==> IsContinue(text[k]))
    && (IsContinue(text[0]) || text[0] == '-')
    && Step(text) == Some(Piece(Some(token), |text|))
  }

  /** Nothing that could continue an identifier follows. */
  predicate Stops(rest: string) { rest == [] || !IsContinue(rest[0]) }

  lemma {:induction false} RunExtends(text: string, rest: string)
    requires Stops(rest) && forall k :: 0 <= k < |text| ==> IsContinue(text[k])
    ensures Run(text) == |text| && Run(text + rest) == |text|
  {
    if text == [] {
      assert text + rest == rest;
    } else {
      assert (text + rest)[1..] == text[1..] + rest;
      RunExtends(text[1..], rest);
    }
  }

  /** What follows a number does not change how it is read: all of it, or not at all. */
  lemma NumberExtends(text: string, rest: string)
    requires text != [] && Stops(rest) && (IsDigit(text[0]) || text[0] == '-')
    requires forall k :: 1 <= k < |text| ==> IsContinue(text[k])
    ensures Number(text + rest) == Number(text)
    ensures Number(text).Some? ==> Number(text).value.size == |text|
  {
    hide Magnitude, Run, Radix;
    var sign := if text[0] == '-' then 1 else 0;
    SuffixAppend(text, rest, sign);
    SameRadix(text[sign..], rest);
    RadixPrefix(text[sign..]);
    var start := if Radix(text[sign..]) == 10 then sign else sign + 2;
    SuffixAppend(text, rest, start);
    RunExtends(text[start..], rest);
  }

  /** What follows a number does not look like the letter of a radix prefix. */
  lemma SameRadix(t: string, rest: string)
    requires Stops(rest)
    ensures Radix(t + rest) == Radix(t)
  {
    var u := t + rest;
    if |t| >= 2 {
      assert u[0] == t[0] && u[1] == t[1];
    } else if |t| == 1 {
      assert |u| >= 2 ==> u[1] == rest[0];
    } else {
      assert u == rest;
    }
  }

  /** An atom is read as its token whatever stands after it. */
  lemma AtomLexes(text: string, token: Token, rest: string)
    requires Atom(text, token) && Stops(rest)
    ensures Lex(text + rest) == Before(Some(token), Lex(rest))
  {
    hide Magnitude, Radix, Number;
    var s := text + rest;
    assert s[0] == text[0] && s[|text|..] == rest;
    if IsDigit(text[0]) || text[0] == '-' {
      NumberExtends(text, rest);
    } else {
      RunExtends(text, rest);
      assert s[..|text|] == text && text[..|text|] == text;
    }
    assert Step(s) == Step(text);
  }

  lemma IdentAtom(name: string)
    requires IsIdent(name)
    ensures Atom(name, TIdent(name))
  {
    RunExtends(name, []);
    assert name + [] == name;
    assert name[..|name|] == name;
  }

  // ----- words copied from the source -----

  /** Every word can be read but a numeral that denotes no number of 64 bits. */
  predicate Readable(s: Lexeme) { IsDigit(s[0]) ==> Number(s).Some? }

  /** What a word stands for; a numeral that cannot be read stands for its own text. */
  function ReadOperand(s: Lexeme): Operand {
    if IsDigit(s[0]) && Number(s).Some? then Num(Number(s).value.token.value.n) else Ident(s)
  }

  function TokenOf(op: Operand): Token { if op.Ident? then TIdent(op.name) else TNum(op.n) }

  lemma ReadableAtom(s: Lexeme)
    requires Readable(s)
    ensures Atom(s, TokenOf(ReadOperand(s)))
  {
    hide Number;
    assert s + [] == s;
    if IsDigit(s[0]) {
      NumberExtends(s, []);
    } else {
      IdentAtom(s);
    }
  }

  /** A text with a word that cannot be read has no tokens. */
  lemma UnreadableLexes(s: Lexeme, rest: string)
    requires !Readable(s) && Stops(rest)
    ensures Lex(s + rest) == None
  {
    hide Number;
    NumberExtends(s, rest);
    assert (s + rest)[0] == s[0];
  }

  // ----- decimal and hexadecimal numbers -----

  lemma {:induction false} DecDigits(n: nat)
    ensures forall k :: 0 <= k < |Dec(n)| ==> IsDigit(Dec(n)[k])
  {
    hide Digit, IsDigit;
    DigitIs(n % 10);
    if n >= 10 {
      DecDigits(n / 10);
    }
  }

  function Decimal(n: i64): string { if n < 0 then "-" + Dec(0 - n as int) else Dec(n) }

  lemma DecimalAtom(n: i64)
    requires n > -0x8000_0000_0000_0000
    ensures Atom(Decimal(n), TNum(n))
  {
    hide Magnitude, Dec, Radix;
    var mag: nat := if n < 0 then 0 - n as int else n;
    DecMagnitude(mag);
    DecDigits(mag);
    var s := Decimal(n);
    var sign := if n < 0 then 1 else 0;
    assert s[sign..] == Dec(mag);
    DecRadix(mag);
    RunExtends(Dec(mag), []);
    assert Dec(mag) + [] == Dec(mag) && s[sign..sign + |Dec(mag)|] == Dec(mag);
  }

  lemma DecRadix(n: nat)
    ensures Radix(Dec(n)) == 10 && IsDigit(Dec(n)[0])
  {
    DecDigits(n);
    if |Dec(n)| >= 2 {
      assert IsDigit(Dec(n)[1]);
    }
  }

  const HEX := "0123456789ABCDEF"

  /** Two upper-case hexadecimal digits. */
  function Hex(b: byte): string { ['0', 'x', HEX[b / 16], HEX[b % 16]] }

  lemma HexMagnitude(b: byte)
    ensures Magnitude([HEX[b / 16], HEX[b % 16]], 16) == Some(b)
  {
    hide DigitIn;
    var digits := [HEX[b / 16], HEX[b % 16]];
    HexDigit(b / 16);
    HexDigit(b % 16);
    assert digits[..1] == [HEX[b / 16]] && [HEX[b / 16]][..0] == [];
    assert Magnitude([HEX[b / 16]], 16) == Some(b / 16);
  }

  lemma HexAtom(b: byte)
    ensures Atom(Hex(b), TNum(b))
  {
    hide Magnitude, DigitIn, Run;
    var digits := [HEX[b / 16], HEX[b % 16]];
    var s := Hex(b);
    HexDigit(b / 16);
    HexDigit(b % 16);
    HexMagnitude(b);
    assert s[0..] == s && s[2..] == digits;
    assert "0x" <= s;
    RunExtends(digits, []);
    assert digits + [] == digits && s[2..2 + 2] == digits;
  }

  lemma HexDigit(d: nat)
    requires d < 16
    ensures IsContinue(HEX[d]) && DigitIn(HEX[d], 16) == Some(d)
  {
  }
}

/** Tokens to lines. */
module Parser {
  import opened Prelude
  import opened Asm
  import opened Lexer

  /** A token stream as the lexer makes them. */
  predicate Terminated(t: seq<Token>) { t != [] && t[|t| - 1] == TEof }

  predicate EndsLine(t: Token) { t == TNewline || t == TEof }

  function OperandOf(t: Token): Option<Operand> {
    match t
    case TIdent(name) => Some(Ident(name))
    case TNum(n) => Some(Num(n))
    case _ => None
  }

  /** Operands, and the tokens left after them. */
  datatype Operands = Operands(ops: seq<Operand>, rest: seq<Token>)

  /** A nonempty operand list. */
  function OperandList(t: seq<Token>): (r: Option<Operands>)
    requires Terminated(t) && !EndsLine(t[0])
    ensures r.Some? ==> Terminated(r.value.rest) && |r.value.rest| < |t|
    decreases |t|
  {
    match OperandOf(t[0])
    case None => None
    case Some(op) =>
      if EndsLine(t[1]) then Some(Operands([op], t[1..]))
      else if t[1] != TComma || EndsLine(t[2]) then None
      else
        match OperandList(t[2..])
        case None => None
        case Some(more) => Some(Operands([op] + more.ops, more.rest))
  }

  function ParseOperands(t: seq<Token>): (r: Option<Operands>)
    requires Terminated(t)
    ensures r.Some? ==> Terminated(r.value.rest) && |r.value.rest| <= |t|
  {
    if EndsLine(t[0]) then Some(Operands([], t)) else OperandList(t)
  }

  function Then(line: Line, rest: Option<seq<Line>>): Option<seq<Line>> {
    match rest
    case None => None
    case Some(lines) => Some([line] + lines)
  }

  /** The lines of a token stream, up to its end. */
  function Parse(t: seq<Token>): Option<seq<Line>>
    requires Terminated(t)
    decreases |t|
  {
    match t[0]
    case TEof => Some([])
    case TNewline => Parse(t[1..])
    case TIdent(name) =>
      if t[1] == TColon then Then(Label(name), Parse(t[2..])) else
      (match ParseOperands(t[1..])
       case None => None
       case Some(o) => Then(Op(name, o.ops), Parse(o.rest)))
    case TDirective(name) =>
      (match ParseOperands(t[1..])
       case None => None
       case Some(o) => Then(Directive(name, o.ops), Parse(o.rest)))
    case _ => None
  }

  function After(before: seq<Line>, rest: Option<seq<Line>>): Option<seq<Line>> {
    match rest
    case None => None
    case Some(lines) => Some(before + lines)
  }

  // ----- the parser as the program runs it -----

  method OperandLoop(t: seq<Token>, from: nat) returns (r: Option<seq<Operand>>, next: nat)
    requires Terminated(t) && from < |t|
    ensures match ParseOperands(t[from..])
            case None => r == None
            case Some(o) => r == Some(o.ops) && from <= next < |t| && o.rest == t[next..]
  {
    next := from;
    var ops: seq<Operand> := [];
    if EndsLine(t[from]) { return Some([]), from; }
    PrefixedNone(OperandList(t[from..]));
    while true
      invariant from <= next < |t| && !EndsLine(t[next])
      invariant Prefixed(ops, OperandList(t[next..])) == OperandList(t[from..])
      decreases |t| - next
    {
      ghost var here := t[next..];
      assert here[1..] == t[next + 1..];
      var op := OperandOf(t[next]);
      if op.None? { return None, next; }
      assert here[1] == t[next + 1];
      ghost var ops0 := ops;
      ops := ops + [op.value];
      next := next + 1;
      if EndsLine(t[next]) { break; }
      if t[next] != TComma { return None, next; }
      assert here[2] == t[next + 1] && here[2..] == t[next + 1..];
      next := next + 1;
      if EndsLine(t[next]) { return None, next; }
      PrefixedMore(ops0, op.value, OperandList(t[next..]));
    }
    return Some(ops), next;
  }

  function Prefixed(ops: seq<Operand>, r: Option<Operands>): Option<Operands> {
    match r
    case None => None
    case Some(o) => Some(Operands(ops + o.ops, o.rest))
  }

  lemma PrefixedNone(r: Option<Operands>)
    ensures Prefixed([], r) == r
  {
    if r.Some? {
      assert [] + r.value.ops == r.value.ops;
    }
  }

  lemma PrefixedMore(ops: seq<Operand>, op: Operand, r: Option<Operands>)
    ensures Prefixed(ops, Prefixed([op], r)) == Prefixed(ops + [op], r)
  {
    if r.Some? {
      Assoc(ops, [op], r.value.ops);
    }
  }

  method ParseLoop(t: seq<Token>) returns (r: Option<seq<Line>>)
    requires Terminated(t)
    ensures r == Parse(t)
  {
    hide ParseOperands;
    var lines: seq<Line> := [];
    var i := 0;
    assert t[0..] == t;
    AfterNone(Parse(t));
    while t[i] != TEof
      invariant 0 <= i < |t|
      invariant After(lines, Parse(t[i..])) == Parse(t)
      decreases |t| - i
    {
      ghost var here := t[i..];
      assert here[0] == t[i] && here[1..] == t[i + 1..];
      match t[i] {
        case TNewline => i := i + 1;
        case TIdent(name) =>
          assert here[1] == t[i + 1];
          if t[i + 1] == TColon {
            assert here[2..] == t[i + 2..];
            AfterThen(lines, Label(name), Parse(here[2..]));
            lines := lines + [Label(name)];
            i := i + 2;
          } else {
            var ops, next := OperandLoop(t, i + 1);
            if ops.None? { return None; }
            AfterThen(lines, Op(name, ops.value), Parse(t[next..]));
            lines := lines + [Op(name, ops.value)];
            i := next;
          }
        case TDirective(name) =>
          var ops, next := OperandLoop(t, i + 1);
          if ops.None? { return None; }
          AfterThen(lines, Directive(name, ops.value), Parse(t[next..]));
          lines := lines + [Directive(name, ops.value)];
          i := next;
        case _ => return None;
      }
    }
    assert lines + [] == lines;
    r := Some(lines);
  }

  lemma AfterNone(r: Option<seq<Line>>)
    ensures After([], r) == r
  {
    if r.Some? {
      assert [] + r.value == r.value;
    }
  }

  lemma AfterThen(before: seq<Line>, line: Line, rest: Option<seq<Line>>)
    ensures After(before, Then(line, rest)) == After(before + [line], rest)
  {
    if rest.Some? {
      Assoc(before, [line], rest.value);
    }
  }
}
