/** What `.equ` lines mean: pass 0 against a reading of its own, and constants against their numbers. */
module Constants {
  import opened Prelude
  import opened Asm
  import opened Encoder
  import opened Assembler

  // ----- pass 0 -----

  predicate IsEqu(line: Line) { line.Directive? && line.name == "equ" }

  /** Line `k` gives `name` the value `v`: a number, or what an earlier line gave another name. */
  ghost predicate Gives(lines: seq<Line>, k: nat, name: string, v: i64)
    requires k < |lines|
    decreases k, 1
  {
    || lines[k] == Directive("equ", [Ident(name), Num(v)])
    || exists other :: lines[k] == Directive("equ", [Ident(name), Ident(other)]) && Earlier(lines, k, other, v)
  }

  /** What `Given` says, within the recursion. */
  ghost predicate Earlier(lines: seq<Line>, n: nat, name: string, v: i64)
    requires n <= |lines|
    decreases n, 0
  {
    exists k: nat :: k < n && Gives(lines, k, name, v)
  }

  /** One of the first `n` lines does. */
  ghost predicate Given(lines: seq<Line>, n: nat, name: string, v: i64)
    requires n <= |lines|
  {
    exists k: nat :: k < n && Gives(lines, k, name, v)
  }

  /** Line `k` gives a name a value, and no earlier line gives that name one. */
  ghost predicate FirstGiven(lines: seq<Line>, k: nat)
    requires k < |lines|
  {
    exists name: string, v: i64 ::
      Gives(lines, k, name, v) && forall j: nat, w: i64 :: j < k ==> !Gives(lines, j, name, w)
  }

  ghost predicate WellGiven(lines: seq<Line>, n: nat)
    requires n <= |lines|
  {
    forall k: nat :: k < n && IsEqu(lines[k]) ==> FirstGiven(lines, k)
  }

  /** The table holds what the first `n` lines give, and nothing else. */
  ghost predicate Holds(lines: seq<Line>, n: nat, syms: Symbols)
    requires n <= |lines|
  {
    forall name: string, v: i64 :: (name in syms && syms[name] == Equ(v)) <==> Given(lines, n, name, v)
  }

  lemma GivenByEqu(lines: seq<Line>, k: nat, name: string, v: i64)
    requires k < |lines| && Gives(lines, k, name, v)
    ensures IsEqu(lines[k]) && |lines[k].args| == 2 && lines[k].args[0] == Ident(name)
  {
  }

  /** What line `n` gives is what its second operand is worth in a table of the lines before it. */
  lemma GivesNow(lines: seq<Line>, n: nat, syms: Symbols, name: string, v: i64)
    requires n < |lines| && Holds(lines, n, syms)
    ensures Gives(lines, n, name, v)
       <==> exists op: Operand :: lines[n] == Directive("equ", [Ident(name), op]) && ResolveImm(op, syms) == Ok(v)
  {
    if Gives(lines, n, name, v) {
      assert lines[n] == Directive("equ", [Ident(name), lines[n].args[1]]);
      var op := lines[n].args[1];
      if op.Ident? {
        assert Earlier(lines, n, op.name, v);
        assert Given(lines, n, op.name, v);
      }
      assert ResolveImm(op, syms) == Ok(v);
    }
    if op: Operand :| lines[n] == Directive("equ", [Ident(name), op]) && ResolveImm(op, syms) == Ok(v) {
      if op.Ident? {
        assert Given(lines, n, op.name, v);
        assert Earlier(lines, n, op.name, v);
      }
    }
  }

  lemma GivenLater(lines: seq<Line>, n: nat, name: string, v: i64)
    requires n < |lines|
    ensures Given(lines, n + 1, name, v) <==> Given(lines, n, name, v) || Gives(lines, n, name, v)
  {
    hide Gives;
  }

  lemma WellLater(lines: seq<Line>, n: nat)
    requires n < |lines|
    ensures WellGiven(lines, n + 1) <==> WellGiven(lines, n) && (IsEqu(lines[n]) ==> FirstGiven(lines, n))
  {
    hide FirstGiven, IsEqu;
  }

  /** One `.equ` line. */
  lemma EquLine(lines: seq<Line>, n: nat, st: EquState)
    requires n < |lines| && IsEqu(lines[n]) && st.diags == [] && Holds(lines, n, st.syms)
    requires forall name :: name in st.syms ==> st.syms[name].Equ?
    ensures EquStep(st, lines[n]).diags == [] <==> FirstGiven(lines, n)
    ensures EquStep(st, lines[n]).diags == [] ==> Holds(lines, n + 1, EquStep(st, lines[n]).syms)
  {
    hide Gives, ResolveImm;
    var line := lines[n];
    if |line.args| == 2 && line.args[0].Ident? && ResolveImm(line.args[1], st.syms).Ok? {
      var name, v := line.args[0].name, ResolveImm(line.args[1], st.syms).value;
      assert line == Directive("equ", [Ident(name), line.args[1]]);
      GivesNow(lines, n, st.syms, name, v);
      if name in st.syms {
        assert Given(lines, n, name, st.syms[name].v);
        TwiceGiven(lines, n, name, v, st.syms[name].v);
      } else {
        forall j: nat, w: i64 | j < n ensures !Gives(lines, j, name, w) {
          assert !Given(lines, n, name, w);
        }
        OnlyLater(lines, n, st.syms, name, v);
      }
    } else if FirstGiven(lines, n) {
      var name: string, v: i64 :|
        Gives(lines, n, name, v) && forall j: nat, w: i64 :: j < n ==> !Gives(lines, j, name, w);
      GivesNow(lines, n, st.syms, name, v);
    }
  }

  lemma TwiceGiven(lines: seq<Line>, n: nat, name: string, v: i64, w: i64)
    requires n < |lines| && Gives(lines, n, name, v) && Given(lines, n, name, w)
    ensures !FirstGiven(lines, n)
  {
    if FirstGiven(lines, n) {
      var name', v' :| Gives(lines, n, name', v') && forall j: nat, u: i64 :: j < n ==> !Gives(lines, j, name', u);
      GivenByEqu(lines, n, name, v);
      GivenByEqu(lines, n, name', v');
      assert false;
    }
  }

  lemma OnlyLater(lines: seq<Line>, n: nat, syms: Symbols, name: string, v: i64)
    requires n < |lines| && Holds(lines, n, syms) && name !in syms && Gives(lines, n, name, v)
    ensures Holds(lines, n + 1, syms[name := Equ(v)])
  {
    hide Gives, ResolveImm;
    var syms' := syms[name := Equ(v)];
    GivesNow(lines, n, syms, name, v);
    forall nm: string, w: i64 ensures (nm in syms' && syms'[nm] == Equ(w)) <==> Given(lines, n + 1, nm, w) {
      GivenLater(lines, n, nm, w);
      GivesNow(lines, n, syms, nm, w);
      if nm == name {
        assert !Given(lines, n, nm, w);
        if Gives(lines, n, nm, w) {
          var op, op' :| lines[n] == Directive("equ", [Ident(name), op]) && ResolveImm(op, syms) == Ok(w)
                         && lines[n] == Directive("equ", [Ident(name), op']) && ResolveImm(op', syms) == Ok(v);
          assert op == lines[n].args[1] == op';
        }
      } else if Gives(lines, n, nm, w) {
        GivenByEqu(lines, n, nm, w);
        GivenByEqu(lines, n, name, v);
        assert false;
      }
    }
  }

  /**
   * Pass 0 complains of nothing exactly when every `.equ` line is the first to give its name a
   * value; the table then maps each name to what its line gives it, and maps no other name.
   */
  lemma {:induction false} PassZero(lines: seq<Line>, n: nat)
    requires n <= |lines|
    ensures EquPass(lines, n).diags == [] <==> WellGiven(lines, n)
    ensures EquPass(lines, n).diags == [] ==> Holds(lines, n, EquPass(lines, n).syms)
    ensures forall name :: name in EquPass(lines, n).syms ==> EquPass(lines, n).syms[name].Equ?
  {
    hide Gives, FirstGiven, ResolveImm;
    if n > 0 {
      PassZero(lines, n - 1);
      WellLater(lines, n - 1);
      var st, line := EquPass(lines, n - 1), lines[n - 1];
      if st.diags == [] && IsEqu(line) {
        EquLine(lines, n - 1, st);
      } else if st.diags == [] {
        forall name: string, v: i64 ensures Given(lines, n, name, v) <==> Given(lines, n - 1, name, v) {
          GivenLater(lines, n - 1, name, v);
          if Gives(lines, n - 1, name, v) {
            GivenByEqu(lines, n - 1, name, v);
          }
        }
      }
    }
  }

  /**
   * Once pass 0 has nothing to complain of: `.equ N, v` makes N the number v, `.equ N, M` makes N
   * what M was made before, and every name in the table is the name of such a line.
   */
  lemma TableIs(lines: seq<Line>, name: string)
    requires EquPass(lines, |lines|).diags == []
    ensures forall v: i64 :: Directive("equ", [Ident(name), Num(v)]) in lines ==>
              name in Equs(lines) && Equs(lines)[name] == Equ(v)
    ensures forall other :: Directive("equ", [Ident(name), Ident(other)]) in lines ==>
              name in Equs(lines) && other in Equs(lines) && Equs(lines)[name] == Equs(lines)[other]
    ensures name in Equs(lines) ==>
              Equs(lines)[name].Equ? && exists op: Operand :: Directive("equ", [Ident(name), op]) in lines
  {
    hide EquPass, Gives;
    PassZero(lines, |lines|);
    forall v: i64 | Directive("equ", [Ident(name), Num(v)]) in lines
      ensures name in Equs(lines) && Equs(lines)[name] == Equ(v)
    {
      var k :| 0 <= k < |lines| && lines[k] == Directive("equ", [Ident(name), Num(v)]);
      NumberGives(lines, k, name, v);
      assert Given(lines, |lines|, name, v);
    }
    forall other | Directive("equ", [Ident(name), Ident(other)]) in lines
      ensures name in Equs(lines) && other in Equs(lines) && Equs(lines)[name] == Equs(lines)[other]
    {
      var k :| 0 <= k < |lines| && lines[k] == Directive("equ", [Ident(name), Ident(other)]);
      var v := NameGives(lines, k, name, other);
      assert Given(lines, |lines|, name, v) && Given(lines, |lines|, other, v);
    }
    if name in Equs(lines) {
      assert Given(lines, |lines|, name, Equs(lines)[name].v);
      var k: nat :| k < |lines| && Gives(lines, k, name, Equs(lines)[name].v);
      GivenByEqu(lines, k, name, Equs(lines)[name].v);
      assert lines[k] == Directive("equ", [Ident(name), lines[k].args[1]]);
    }
  }

  lemma NumberGives(lines: seq<Line>, k: nat, name: string, v: i64)
    requires k < |lines| && lines[k] == Directive("equ", [Ident(name), Num(v)])
    ensures Gives(lines, k, name, v)
  {
  }

  lemma NameGives(lines: seq<Line>, k: nat, name: string, other: string) returns (v: i64)
    requires k < |lines| && lines[k] == Directive("equ", [Ident(name), Ident(other)]) && WellGiven(lines, |lines|)
    ensures Gives(lines, k, name, v) && exists j: nat :: j < k && Gives(lines, j, other, v)
  {
    assert IsEqu(lines[k]) && FirstGiven(lines, k);
    var name': string, v': i64 :|
      Gives(lines, k, name', v') && forall j: nat, w: i64 :: j < k ==> !Gives(lines, j, name', w);
    v := v';
    assert Earlier(lines, k, other, v);
    assert Given(lines, k, other, v);
  }
}

/** When a program assembles. */
module Diagnostics {
  import opened Prelude
  import opened Asm
  import opened Encoder
  import opened Assembler
  import opened Simulation
  import opened Constants

  /** A label that neither a constant nor an earlier label has. */
  ghost predicate NewLabel(lines: seq<Line>, k: nat)
    requires k < |lines|
  {
    lines[k].Label? ==>
      (forall v: i64 :: !Given(lines, |lines|, lines[k].name, v)) && forall j :: 0 <= j < k ==> lines[j] != lines[k]
  }

  predicate KnownDirective(line: Line) {
    line.Directive? ==>
      line.name == "equ" || line.name == "text" || (line.name == "globl" && |line.args| == 1 && line.args[0].Ident?)
  }

  predicate Encodes(lines: seq<Line>, k: nat)
    requires k < |lines|
  {
    lines[k].Op? ==>
      EncodeLine(lines[k].mnemonic, lines[k].operands, AddrOf(lines, k) % 0x1_0000, Syms(lines)).Ok?
  }

  lemma {:induction false} LabelsIff(lines: seq<Line>, equs: Symbols, n: nat)
    requires n <= |lines|
    ensures AddrPass(lines, equs, n).diags == []
       <==> forall k :: 0 <= k < n && lines[k].Label? ==>
              lines[k].name !in equs && forall j :: 0 <= j < k ==> lines[j] != lines[k]
    ensures forall name :: name in AddrPass(lines, equs, n).syms
                      <==> name in equs || exists j :: 0 <= j < n && lines[j] == Label(name)
  {
    hide WordCount;
    if n > 0 {
      LabelsIff(lines, equs, n - 1);
      var line := lines[n - 1];
      if line.Label? {
        assert line == Label(line.name);
      }
    }
  }

  lemma {:induction false} CodeIff(lines: seq<Line>, n: nat)
    requires n <= |lines|
    ensures CodePass(lines, Syms(lines), n).diags == []
       <==> forall k :: 0 <= k < n ==> Encodes(lines, k) && KnownDirective(lines[k])
  {
    hide EncodeLine, WordCount, AddrPass;
    if n > 0 {
      CodeIff(lines, n - 1);
      PassesAgree(lines, Equs(lines), n - 1);
    }
  }

  lemma NotGiven(lines: seq<Line>, name: string)
    requires WellGiven(lines, |lines|)
    ensures name !in Equs(lines) <==> forall v: i64 :: !Given(lines, |lines|, name, v)
  {
    hide EquPass, Given, WellGiven;
    PassZero(lines, |lines|);
    if name in Equs(lines) {
      assert Given(lines, |lines|, name, Equs(lines)[name].v);
    }
  }

  /**
   * A program assembles exactly when each `.equ` is the first to give its name a value, each label
   * is new, each directive is known, each instruction encodes where it stands, and the code fits.
   */
  lemma AssembliesIff(lines: seq<Line>)
    ensures Assembles(lines)
       <==> && WellGiven(lines, |lines|)
            && (forall k :: 0 <= k < |lines| ==> NewLabel(lines, k) && KnownDirective(lines[k]) && Encodes(lines, k))
            && AddrOf(lines, |lines|) <= 1024
  {
    hide EquPass, AddrPass, CodePass, WellGiven, Given, Encodes, KnownDirective;
    PassZero(lines, |lines|);
    LabelsIff(lines, Equs(lines), |lines|);
    CodeIff(lines, |lines|);
    if WellGiven(lines, |lines|) {
      forall k | 0 <= k < |lines| && lines[k].Label?
        ensures lines[k].name !in Equs(lines) <==> forall v: i64 :: !Given(lines, |lines|, lines[k].name, v)
      {
        NotGiven(lines, lines[k].name);
      }
    }
  }
}
