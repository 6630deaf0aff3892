/** Numerals, the words of the language, and letter case. */
module Text {
  import opened Prelude

  const DIGITS := "0123456789"

  function Digit(d: nat): char
    requires d < 10
  {
    DIGITS[d]
  }

  /** The decimal numeral of `n`. */
  function Dec(n: nat): (s: string)
    ensures s != []
  {
    if n < 10 then [Digit(n)] else Dec(n / 10) + [Digit(n % 10)]
  }

  predicate IsDigit(c: char) { '0' <= c <= '9' }

  function DigitIn(c: char, radix: nat): Option<nat> {
    var d := if IsDigit(c) then c as nat - '0' as nat
             else if 'a' <= c <= 'z' then c as nat - 'a' as nat + 10
             else if 'A' <= c <= 'Z' then c as nat - 'A' as nat + 10
             else 36;
    if d < radix then Some(d) else None
  }

  /** The number a string of digits denotes; no digits denote zero. */
  function Magnitude(s: string, radix: nat): Option<nat> {
    if s == [] then Some(0) else
    match (Magnitude(s[..|s| - 1], radix), DigitIn(s[|s| - 1], radix))
    case (Some(front), Some(d)) => Some(front * radix + d)
    case _ => None
  }

  /** A decimal numeral has at least one digit. */
  function ParseNat(s: string): Option<nat> { if s == [] then None else Magnitude(s, 10) }

  lemma DigitIs(d: nat)
    requires d < 10
    ensures IsDigit(Digit(d)) && DigitIn(Digit(d), 10) == Some(d)
  {
  }

  lemma {:induction false} DecMagnitude(n: nat)
    ensures Magnitude(Dec(n), 10) == Some(n)
  {
    hide Digit, DigitIn;
    DigitIs(n % 10);
    if n >= 10 {
      DecMagnitude(n / 10);
      var s := Dec(n);
      assert s[..|s| - 1] == Dec(n / 10);
    } else {
      assert Dec(n)[..0] == [];
    }
  }

  lemma DecInjective(m: nat, n: nat)
    requires Dec(m) == Dec(n)
    ensures m == n
  {
    DecMagnitude(m);
    DecMagnitude(n);
  }

  // ----- the words of the language -----

  predicate IsStart(c: char) { 'a' <= c <= 'z' || 'A' <= c <= 'Z' || c == '_' }

  predicate IsContinue(c: char) { IsStart(c) || IsDigit(c) }

  predicate IsLexeme(s: string) { s != [] && forall k :: 0 <= k < |s| ==> IsContinue(s[k]) }

  predicate IsIdent(s: string) { IsLexeme(s) && IsStart(s[0]) }

  /**
   * What the lexer of the language cuts out: an identifier, or anything that starts with a digit
   * and goes on like one. Whether such a numeral denotes a number is not looked at.
   */
  type Lexeme = s: string | IsLexeme(s) witness "0"

  type Word = s: string | IsIdent(s) witness "a"

  type Numeral = s: string | IsLexeme(s) && IsDigit(s[0]) witness "0"

  function LowerChar(c: char): char {
    if 'A' <= c <= 'Z' then (c as int + 32) as char else c
  }

  function LowerCase(s: string): (r: string)
    ensures |r| == |s|
  {
    if s == [] then [] else [LowerChar(s[0])] + LowerCase(s[1..])
  }

  lemma {:induction false} AlreadyLower(s: string)
    requires forall k :: 0 <= k < |s| ==> !('A' <= s[k] <= 'Z')
    ensures LowerCase(s) == s
  {
    if s != [] {
      AlreadyLower(s[1..]);
    }
  }
}
