/** What spacing, comments and numerals are to the assembler. */
module TextLaws {
  import opened Prelude
  import opened Text
  import opened Lexer

  // ----- comments -----

  /** The text without its comments, each of which runs from `#` or `;` up to the end of its line. */
  function Uncommented(s: string, inside: bool): (r: string)
    ensures |r| <= |s|
  {
    if s == [] then []
    else if s[0] == '\n' then ['\n'] + Uncommented(s[1..], false)
    else if inside || s[0] == '#' || s[0] == ';' then Uncommented(s[1..], true)
    else [s[0]] + Uncommented(s[1..], false)
  }

  /** A character that is skipped or is a token by itself. */
  predicate Alone(c: char) { c == ' ' || c == '\t' || c == '\r' || c == '\n' || c == ',' || c == ':' }

  predicate Opens(c: char) { c == '.' || c == '-' || IsContinue(c) }

  /** As much of a text as one word, number or directive can take. */
  predicate Chunk(t: string) { t != [] && Opens(t[0]) && forall k :: 1 <= k < |t| ==> IsContinue(t[k]) }

  lemma ChunkOf(s: string) returns (n: nat)
    requires s != [] && Opens(s[0])
    ensures 1 <= n <= |s| && Chunk(s[..n]) && Stops(s[n..])
  {
    n := 1 + Run(s[1..]);
    forall k | 1 <= k < n ensures IsContinue(s[k]) {
      assert s[k] == s[1..][k - 1];
    }
    if n < |s| {
      assert s[n] == s[1..][n - 1];
    }
  }

  lemma DirectiveChunk(t: string, r: string)
    requires Chunk(t) && Stops(r) && t[0] == '.'
    ensures Step(t + r) == Step(t) && (Step(t).Some? ==> Step(t).value.size == |t|)
  {
    hide Number;
    assert (t + r)[1..] == t[1..] + r;
    RunExtends(t[1..], r);
    var n := |t| - 1;
    assert (t + r)[1..1 + n] == t[1..1 + n];
  }

  lemma NumberChunk(t: string, r: string)
    requires Chunk(t) && Stops(r) && (t[0] == '-' || IsDigit(t[0]))
    ensures Step(t + r) == Step(t) && (Step(t).Some? ==> Step(t).value.size == |t|)
  {
    hide Number, Run, Comment;
    assert (t + r)[0] == t[0];
    NumberExtends(t, r);
  }

  lemma WordChunk(t: string, r: string)
    requires Chunk(t) && Stops(r) && IsStart(t[0])
    ensures Step(t + r) == Step(t) && (Step(t).Some? ==> Step(t).value.size == |t|)
  {
    hide Number;
    RunExtends(t, r);
    assert (t + r)[0] == t[0] && (t + r)[..|t|] == t && t[..|t|] == t;
  }

  /** A chunk is read the same whatever follows it, and read whole. */
  lemma ChunkLexes(t: string, r: string)
    requires Chunk(t) && Stops(r)
    ensures Lex(t + r) == match Step(t) case None => None case Some(p) => Before(p.token, Lex(r))
  {
    hide Step;
    if t[0] == '.' {
      DirectiveChunk(t, r);
    } else if t[0] == '-' || IsDigit(t[0]) {
      NumberChunk(t, r);
    } else {
      WordChunk(t, r);
    }
    assert (t + r)[|t|..] == r;
  }

  lemma {:induction false} ChunkStays(t: string, r: string)
    requires (t != [] ==> Opens(t[0])) && forall k :: 1 <= k < |t| ==> IsContinue(t[k])
    ensures Uncommented(t + r, false) == t + Uncommented(r, false)
    decreases |t|
  {
    if t == [] {
      assert t + r == r && [] + Uncommented(r, false) == Uncommented(r, false);
    } else {
      assert (t + r)[0] == t[0] && (t + r)[1..] == t[1..] + r;
      ChunkStays(t[1..], r);
      assert [t[0]] + (t[1..] + Uncommented(r, false)) == t + Uncommented(r, false);
    }
  }

  lemma StillStops(r: string)
    requires Stops(r)
    ensures Stops(Uncommented(r, false))
  {
    if r != [] && (r[0] == '#' || r[0] == ';') {
      InsideStops(r[1..]);
    }
  }

  lemma {:induction false} InsideStops(r: string)
    ensures Uncommented(r, true) == [] || Uncommented(r, true)[0] == '\n'
  {
    if r != [] && r[0] != '\n' {
      InsideStops(r[1..]);
    }
  }

  lemma {:induction false} CommentEnds(s: string)
    ensures Uncommented(s, true) == Uncommented(s[Comment(s)..], false)
  {
    if s != [] && s[0] != '\n' {
      CommentEnds(s[1..]);
      assert s[1..][Comment(s[1..])..] == s[Comment(s)..];
    }
  }

  /** A text has the tokens it has without its comments. */
  lemma {:induction false} CommentsAreNothing(s: string)
    ensures Lex(Uncommented(s, false)) == Lex(s)
    decreases |s|
  {
    hide Step, Comment, Run;
    if s == [] {
    } else if s[0] == '#' || s[0] == ';' {
      CommentLexes(s);
      CommentEnds(s[1..]);
      CommentsAreNothing(s[1..][Comment(s[1..])..]);
    } else if Alone(s[0]) {
      CommentsAreNothing(s[1..]);
      AloneLexes(s[0], s[1..], Uncommented(s[1..], false));
      assert [s[0]] + s[1..] == s;
    } else if Opens(s[0]) {
      var n := ChunkOf(s);
      var t, r := s[..n], s[n..];
      assert s == t + r;
      ChunkStays(t, r);
      StillStops(r);
      CommentsAreNothing(r);
      ChunkLexes(t, r);
      ChunkLexes(t, Uncommented(r, false));
    } else {
      NothingStarts(s);
      NothingStarts([s[0]] + Uncommented(s[1..], false));
    }
  }

  lemma CommentLexes(s: string)
    requires s != [] && (s[0] == '#' || s[0] == ';')
    ensures Lex(s) == Lex(s[1..][Comment(s[1..])..])
  {
    assert s[1 + Comment(s[1..])..] == s[1..][Comment(s[1..])..];
  }

  lemma AloneLexes(c: char, s: string, r: string)
    requires Alone(c) && Lex(s) == Lex(r)
    ensures Lex([c] + s) == Lex([c] + r)
  {
    assert ([c] + s)[1..] == s && ([c] + r)[1..] == r;
  }

  lemma NothingStarts(s: string)
    requires s != [] && !Alone(s[0]) && !Opens(s[0]) && s[0] != '#' && s[0] != ';'
    ensures Lex(s) == None
  {
  }

  /** Spaces, tabs and carriage returns between tokens are nothing either. */
  lemma BlanksAreNothing(c: char, s: string)
    requires c == ' ' || c == '\t' || c == '\r'
    ensures Lex([c] + s) == Lex(s)
  {
    assert ([c] + s)[1..] == s;
  }

  // ----- numerals -----

  /** What a character is worth as a digit. */
  function Worth(c: char): nat {
    if '0' <= c <= '9' then c as nat - '0' as nat
    else if 'a' <= c <= 'f' then c as nat - 'a' as nat + 10
    else if 'A' <= c <= 'F' then c as nat - 'A' as nat + 10
    else 16
  }

  predicate AllDigits(ds: string, radix: nat) { forall k :: 0 <= k < |ds| ==> Worth(ds[k]) < radix }

  function Power(b: nat, n: nat): nat { if n == 0 then 1 else b * Power(b, n - 1) }

  /** The digits weighted by their places, the last by one. */
  function Positional(ds: string, radix: nat): nat {
    if ds == [] then 0 else Worth(ds[0]) * Power(radix, |ds| - 1) + Positional(ds[1..], radix)
  }

  lemma Distributes(a: nat, b: nat, c: nat, r: nat)
    ensures a * (r * b) + (c * r) == (a * b + c) * r
  {
  }

  lemma {:induction false} LastPlace(ds: string, radix: nat)
    requires ds != []
    ensures Positional(ds, radix) == Positional(ds[..|ds| - 1], radix) * radix + Worth(ds[|ds| - 1])
  {
    hide Worth;
    var front := ds[..|ds| - 1];
    if |ds| == 1 {
      assert front == [] && ds[1..] == [];
      assert Power(radix, 0) == 1;
    } else {
      LastPlace(ds[1..], radix);
      assert ds[1..][..|ds| - 2] == front[1..] && front[0] == ds[0];
      Distributes(Worth(ds[0]), Power(radix, |ds| - 2), Positional(front[1..], radix), radix);
    }
  }

  lemma DigitIs(c: char, radix: nat)
    requires radix <= 16
    ensures DigitIn(c, radix) == if Worth(c) < radix then Some(Worth(c)) else None
  {
  }

  lemma {:induction false} MagnitudeIs(ds: string, radix: nat)
    requires radix <= 16
    ensures Magnitude(ds, radix) == if AllDigits(ds, radix) then Some(Positional(ds, radix)) else None
  {
    hide Worth, DigitIn, Positional;
    if ds == [] {
      assert Positional([], radix) == 0 by { NoPlaces(radix); }
    } else {
      var front, last := ds[..|ds| - 1], ds[|ds| - 1];
      MagnitudeIs(front, radix);
      DigitIs(last, radix);
      LastPlace(ds, radix);
      assert AllDigits(ds, radix) <==> AllDigits(front, radix) && Worth(last) < radix;
    }
  }

  lemma NoPlaces(radix: nat)
    ensures Positional([], radix) == 0
  {
  }

  /** How a numeral of the radix starts. */
  predicate Prefix(p: string, radix: nat) {
    (p == "" && radix == 10) || (p in ["0x", "0X"] && radix == 16) || (p in ["0b", "0B"] && radix == 2)
  }

  /** Digits that do not look like a radix prefix. */
  predicate Unprefixed(ds: string) { |ds| >= 2 && ds[0] == '0' ==> ds[1] !in ['x', 'X', 'b', 'B'] }

  lemma RadixIs(p: string, radix: nat, ds: string)
    requires Prefix(p, radix) && (radix == 10 ==> Unprefixed(ds))
    ensures Radix(p + ds) == radix
  {
    var s := p + ds;
    if p == "" {
      assert s == ds;
    } else {
      assert s[0] == p[0] && s[1] == p[1];
    }
  }

  lemma PrefixIs(p: string, radix: nat)
    requires Prefix(p, radix)
    ensures radix <= 16 && |p| == (if radix == 10 then 0 else 2)
    ensures p != "" ==> p[0] == '0' && IsContinue(p[0]) && IsContinue(p[1])
  {
  }

  /** The text of a numeral. */
  function Numeral(negative: bool, p: string, ds: string): string { (if negative then "-" else "") + (p + ds) }

  function Signed(negative: bool, n: nat): int { if negative then 0 - n as int else n }

  /** Digits after a prefix, or decimal digits that a prefix cannot be read into. */
  predicate Spelled(negative: bool, p: string, radix: nat, ds: string) {
    && Prefix(p, radix) && ds != [] && (forall k :: 0 <= k < |ds| ==> IsContinue(ds[k]))
    && (radix == 10 ==> Unprefixed(ds) && (negative || IsDigit(ds[0])))
  }

  lemma NumeralParts(negative: bool, p: string, radix: nat, ds: string)
    requires Spelled(negative, p, radix, ds)
    ensures var t, sign := Numeral(negative, p, ds), if negative then 1 else 0;
            && t != [] && Chunk(t) && (t[0] == '-' <==> negative) && (t[0] == '-' || IsDigit(t[0]))
            && |t| == sign + |p| + |ds| && Radix(t[sign..]) == radix
            && t[sign + |p|..] == ds && t[sign + |p|..sign + |p| + |ds|] == ds
  {
    hide Prefix, Radix;
    PrefixIs(p, radix);
    RadixIs(p, radix, ds);
    var t, sign := Numeral(negative, p, ds), if negative then 1 else 0;
    assert t[sign..] == p + ds;
    assert t[sign + |p|..] == ds;
    forall k | sign <= k < |t| ensures IsContinue(t[k]) {
      assert t[k] == (p + ds)[k - sign];
    }
  }

  lemma NumberIs(negative: bool, p: string, radix: nat, ds: string)
    requires Spelled(negative, p, radix, ds)
    ensures var t := Numeral(negative, p, ds);
            Number(t) == if AllDigits(ds, radix) && Positional(ds, radix) < 0x8000_0000_0000_0000 then
                           Some(Piece(Some(TNum(Signed(negative, Positional(ds, radix)))), |t|))
                         else
                           None
  {
    hide Radix, Magnitude, Positional, AllDigits, Run, Prefix, Numeral, Chunk, IsContinue, Unprefixed;
    NumeralParts(negative, p, radix, ds);
    PrefixIs(p, radix);
    MagnitudeIs(ds, radix);
    RunsWhole(ds);
  }

  lemma RunsWhole(ds: string)
    requires forall k :: 0 <= k < |ds| ==> IsContinue(ds[k])
    ensures Run(ds) == |ds|
  {
    RunExtends(ds, []);
  }

  /**
   * A decimal, hexadecimal or binary numeral, signed or not, is the number its digits denote; one
   * with a character that is no digit of its radix, or too large for 64 bits, leaves no tokens.
   */
  lemma NumeralLexes(negative: bool, p: string, radix: nat, ds: string, rest: string)
    requires Spelled(negative, p, radix, ds) && Stops(rest)
    ensures Lex(Numeral(negative, p, ds) + rest)
         == if AllDigits(ds, radix) && Positional(ds, radix) < 0x8000_0000_0000_0000 then
              Before(Some(TNum(Signed(negative, Positional(ds, radix)))), Lex(rest))
            else
              None
  {
    hide Lex, Number, Positional, AllDigits, Prefix, Numeral, Chunk, Radix, Stops, Spelled, Signed, Run, Comment;
    NumeralParts(negative, p, radix, ds);
    NumberIs(negative, p, radix, ds);
    ChunkLexes(Numeral(negative, p, ds), rest);
    assert Step(Numeral(negative, p, ds)) == Number(Numeral(negative, p, ds));
  }
}
