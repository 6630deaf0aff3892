/** How the assembler reads register names and configuration words. */
module Operands {
  import opened Prelude
  import opened Text
  import opened Isa
  import opened Asm
  import opened Encoder

  const ABI_NAMES: seq<string> := [
    "zero", "ra", "sp", "gp", "tp", "t0", "t1", "t2", "s0", "s1", "a0", "a1", "a2", "a3", "a4", "a5",
    "a6", "a7", "s2", "s3", "s4", "s5", "s6", "s7", "s8", "s9", "s10", "s11", "t3", "t4", "t5", "t6"]

  predicate Numbered(name: string, n: nat) { n < 32 && name != [] && name[0] == 'x' && ParseNat(name[1..]) == Some(n) }

  predicate Conventional(name: string, n: nat) { n < 32 && (name == ABI_NAMES[n] || (n == 8 && name == "fp")) }

  lemma FirstNames(name: string, n: nat)
    requires n < 16
    ensures AbiNumber(name) == Some(n) <==> Conventional(name, n)
  {
  }

  lemma LastNames(name: string, n: nat)
    requires 16 <= n < 32
    ensures AbiNumber(name) == Some(n) <==> Conventional(name, n)
  {
  }

  lemma NoConventionalX(name: string, n: nat)
    requires Conventional(name, n)
    ensures n < 32 && name[0] != 'x'
  {
  }

  /** Register `n` is `x` with a numeral for `n`, its conventional name, or `fp` for s0; nothing else is a register. */
  lemma RegisterIff(name: string, n: nat)
    ensures RegNumber(name) == Some(n) <==> Numbered(name, n) || Conventional(name, n)
  {
    hide AbiNumber, ParseNat, Conventional;
    if n < 16 {
      FirstNames(name, n);
    } else if n < 32 {
      LastNames(name, n);
    }
    if Conventional(name, n) {
      NoConventionalX(name, n);
    }
  }

  lemma NumberedRegister(n: nat)
    requires n < 32
    ensures Numbered("x" + Dec(n), n) && RegNumber("x" + Dec(n)) == Some(n)
  {
    hide Dec;
    var name := "x" + Dec(n);
    assert name[0] == 'x' && name[1..] == Dec(n);
    DecMagnitude(n);
  }

  /** The four words of a configuration this version supports, in any case. */
  function ConfigOf(a: seq<Actual>): Option<Cfg6> {
    if |a| == 4 && Keyword(a[0]) == "controller" && Keyword(a[1]) == "x1" && Keyword(a[2]) == "sck20" then
      if Keyword(a[3]) == "alert_pin" then Some(0) else if Keyword(a[3]) == "alert_io1" then Some(1) else None
    else
      None
  }

  lemma ConfigIs(a: seq<Actual>)
    ensures ResolveConfig(a) == match ConfigOf(a) case Some(p) => Ok(SetConfig(p)) case None => Err(BadLine)
  {
    hide Keyword;
  }
}
