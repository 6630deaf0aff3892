/** Which modules the compiler accepts. */
module Accepted {
  import opened Prelude
  import opened Asm
  import opened Ast
  import opened ConstEval
  import opened Registers
  import opened Emit
  import opened Driver
  import opened Weight
  import opened Acceptance
  import opened Ownership
  import opened Conservation
  import opened Correct
  import Interp
  import P = Printer

  /** The predefined functions and the words that start a statement. */
  const WORDS: seq<string> := ["crc8", "len", "lo", "hi", "pass", "fail", "send", "crc_region", "config", "frame",
                               "recv", "wait_state", "expect", "repeat"]

  // ----- the tables -----

  ghost predicate FnsAre(fns: seq<FnDef>, table: map<string, FnDef>) {
    && (forall i :: 0 <= i < |fns| ==> fns[i].name !in WORDS && fns[i].name in table && table[fns[i].name] == fns[i])
    && (forall i, j :: 0 <= i < j < |fns| ==> fns[i].name != fns[j].name)
    && (forall name :: name in table ==> exists i :: 0 <= i < |fns| && fns[i].name == name)
  }

  ghost predicate ProcsAre(procs: seq<ProcDef>, fns: map<string, FnDef>, table: map<string, ProcDef>) {
    && (forall i :: 0 <= i < |procs| ==>
          && procs[i].name !in WORDS && procs[i].name !in fns
          && procs[i].name in table && table[procs[i].name] == procs[i])
    && (forall i, j :: 0 <= i < j < |procs| ==> procs[i].name != procs[j].name)
    && (forall name :: name in table ==> exists i :: 0 <= i < |procs| && procs[i].name == name)
  }

  /** `known` and the given constants. */
  function Known(known: ConstEval.Scope, consts: seq<Const>, values: seq<Value>): ConstEval.Scope
    requires |consts| == |values|
    decreases |consts|
  {
    if consts == [] then known else Known(known[consts[0].name := values[0]], consts[1..], values[1..])
  }

  /** Each constant has a name of its own and a value under those before it. */
  ghost predicate Valued(known: ConstEval.Scope, consts: seq<Const>, values: seq<Value>, env: Env) {
    && |values| == |consts|
    && (forall k :: 0 <= k < |consts| ==> consts[k].name !in known)
    && (forall j, k :: 0 <= j < k < |consts| ==> consts[j].name != consts[k].name)
    && (forall k :: 0 <= k < |consts| ==>
          Eval(consts[k].value, env.(consts := Known(known, consts[..k], values[..k]))) == Ok(values[k]))
  }

  ghost predicate ConstsAre(consts: seq<Const>, env: Env) {
    exists values: seq<Value> :: Valued(map[], consts, values, env) && env.consts == Known(map[], consts, values)
  }

  /** What the body of the test sees. */
  ghost predicate Sees(m: Module, env: Env, procs: map<string, ProcDef>) {
    && env.locals == map[] && env.active == []
    && FnsAre(m.fns, env.fns) && ProcsAre(m.procs, env.fns, procs) && ConstsAre(m.consts, env)
  }

  lemma WordsAre(name: string)
    ensures Driver.Reserved(name) <==> name in WORDS
  {
  }

  /** `more` is `table` and the given functions, all of them new to it. */
  ghost predicate Installed(fns: seq<FnDef>, table: map<string, FnDef>, more: map<string, FnDef>) {
    && (forall i :: 0 <= i < |fns| ==> fns[i].name !in WORDS && fns[i].name !in table)
    && (forall i, j :: 0 <= i < j < |fns| ==> fns[i].name != fns[j].name)
    && (forall i :: 0 <= i < |fns| ==> fns[i].name in more && more[fns[i].name] == fns[i])
    && (forall name :: name in table ==> name in more && more[name] == table[name])
    && (forall name :: name in more ==> name in table || exists i :: 0 <= i < |fns| && fns[i].name == name)
  }

  lemma InstalledNone(table: map<string, FnDef>, more: map<string, FnDef>)
    ensures Installed([], table, more) <==> more == table
  {
  }

  lemma InstalledFirst(fns: seq<FnDef>, table: map<string, FnDef>, more: map<string, FnDef>)
    requires fns != [] && Installed(fns, table, more)
    ensures Installed(fns[1..], table[fns[0].name := fns[0]], more)
  {
    hide WORDS;
    var rest := fns[1..];
    forall i | 0 <= i < |rest| ensures rest[i] == fns[i + 1] && rest[i].name != fns[0].name {
    }
    forall name | name in more
      ensures name in table[fns[0].name := fns[0]] || exists i :: 0 <= i < |rest| && rest[i].name == name
    {
      if name !in table {
        var i :| 0 <= i < |fns| && fns[i].name == name;
        assert i > 0 ==> rest[i - 1].name == name;
      }
    }
  }

  lemma InstalledAll(fns: seq<FnDef>, table: map<string, FnDef>, more: map<string, FnDef>)
    requires fns != [] && fns[0].name !in WORDS && fns[0].name !in table
    requires Installed(fns[1..], table[fns[0].name := fns[0]], more)
    ensures Installed(fns, table, more)
  {
    hide WORDS;
    var rest, table1 := fns[1..], table[fns[0].name := fns[0]];
    assert fns[0].name in table1;
    forall i | 0 < i < |fns| ensures fns[i] == rest[i - 1] && fns[i].name != fns[0].name {
      assert rest[i - 1].name !in table1;
    }
    forall name | name in more ensures name in table || exists i :: 0 <= i < |fns| && fns[i].name == name {
      if name !in table1 {
        var i :| 0 <= i < |rest| && rest[i].name == name;
        assert fns[i + 1].name == name;
      }
    }
    forall i, j | 0 <= i < j < |fns| ensures fns[i].name != fns[j].name {
      if i > 0 {
        assert rest[i - 1].name != rest[j - 1].name;
      }
    }
  }

  lemma {:induction false} InstallIff(fns: seq<FnDef>, env: Env, env': Env)
    ensures InstallFns(fns, env) == Ok(env') <==> env' == env.(fns := env'.fns) && Installed(fns, env.fns, env'.fns)
    decreases |fns|
  {
    hide Driver.Reserved, Installed, WORDS;
    if fns == [] {
      InstalledNone(env.fns, env'.fns);
    } else {
      var f := fns[0];
      WordsAre(f.name);
      if !(Driver.Reserved(f.name) || f.name in env.fns) {
        var env1 := env.(fns := env.fns[f.name := f]);
        InstallIff(fns[1..], env1, env');
        if Installed(fns[1..], env1.fns, env'.fns) {
          InstalledAll(fns, env.fns, env'.fns);
        }
      }
      if Installed(fns, env.fns, env'.fns) {
        FirstInstalled(fns, env.fns, env'.fns);
        InstalledFirst(fns, env.fns, env'.fns);
      }
    }
  }

  lemma FirstInstalled(fns: seq<FnDef>, table: map<string, FnDef>, more: map<string, FnDef>)
    requires fns != [] && Installed(fns, table, more)
    ensures fns[0].name !in WORDS && fns[0].name !in table
  {
    hide WORDS;
  }

  lemma FnsAreInstalled(fns: seq<FnDef>, table: map<string, FnDef>)
    ensures FnsAre(fns, table) <==> Installed(fns, map[], table)
  {
    hide WORDS;
  }

  lemma KnownSlice(known: ConstEval.Scope, consts: seq<Const>, values: seq<Value>, k: nat)
    requires 1 <= k <= |consts| == |values|
    ensures Known(known, consts[..k], values[..k])
         == Known(known[consts[0].name := values[0]], consts[1..][..k - 1], values[1..][..k - 1])
  {
    assert consts[..k][1..] == consts[1..][..k - 1] && values[..k][1..] == values[1..][..k - 1];
  }

  /** The first constant, and then the others. */
  lemma ValuedFirst(known: ConstEval.Scope, consts: seq<Const>, values: seq<Value>, env: Env)
    requires consts != [] && |values| == |consts|
    ensures Valued(known, consts, values, env)
       <==> && consts[0].name !in known && Eval(consts[0].value, env.(consts := known)) == Ok(values[0])
            && Valued(known[consts[0].name := values[0]], consts[1..], values[1..], env)
  {
    hide Eval;
    var known1, rest, more := known[consts[0].name := values[0]], consts[1..], values[1..];
    assert Known(known, consts[..0], values[..0]) == known;
    forall k | 0 <= k < |rest|
      ensures Known(known, consts[..k + 1], values[..k + 1]) == Known(known1, rest[..k], more[..k])
      ensures rest[k] == consts[k + 1] && more[k] == values[k + 1]
    {
      KnownSlice(known, consts, values, k + 1);
    }
    if Valued(known1, rest, more, env) && consts[0].name !in known
       && Eval(consts[0].value, env.(consts := known)) == Ok(values[0]) {
      forall k | 0 <= k < |consts|
        ensures consts[k].name !in known
        ensures Eval(consts[k].value, env.(consts := Known(known, consts[..k], values[..k]))) == Ok(values[k])
      {
        if k > 0 {
          assert rest[k - 1] == consts[k] && rest[k - 1].name !in known1;
        }
      }
      forall j, k | 0 <= j < k < |consts| ensures consts[j].name != consts[k].name {
        assert rest[k - 1].name !in known1;
      }
    }
    if Valued(known, consts, values, env) {
      forall k | 0 <= k < |rest|
        ensures rest[k].name !in known1
        ensures Eval(rest[k].value, env.(consts := Known(known1, rest[..k], more[..k]))) == Ok(more[k])
      {
        assert consts[0].name != consts[k + 1].name;
      }
      assert Valued(known1, rest, more, env);
    }
  }

  lemma {:induction false} ResolveTakes(consts: seq<Const>, env: Env, values: seq<Value>)
    requires Valued(env.consts, consts, values, env)
    ensures ResolveConsts(consts, env) == Ok(env.(consts := Known(env.consts, consts, values)))
    decreases |consts|
  {
    hide Eval, Valued;
    ValuedSize(env.consts, consts, values, env);
    if consts != [] {
      ValuedFirst(env.consts, consts, values, env);
      var env1 := env.(consts := env.consts[consts[0].name := values[0]]);
      SameValued(env1.consts, consts[1..], values[1..], env, env1);
      ResolveTakes(consts[1..], env1, values[1..]);
    }
  }

  lemma ValuedSize(known: ConstEval.Scope, consts: seq<Const>, values: seq<Value>, env: Env)
    requires Valued(known, consts, values, env)
    ensures |values| == |consts|
  {
    hide Eval;
  }

  lemma SameValued(known: ConstEval.Scope, consts: seq<Const>, values: seq<Value>, env: Env, env1: Env)
    requires env1 == env.(consts := env1.consts)
    ensures Valued(known, consts, values, env) <==> Valued(known, consts, values, env1)
  {
    hide Eval, Known;
  }

  lemma {:induction false} ResolveGives(consts: seq<Const>, env: Env) returns (values: seq<Value>)
    requires ResolveConsts(consts, env).Ok?
    ensures Valued(env.consts, consts, values, env)
    ensures ResolveConsts(consts, env).value == env.(consts := Known(env.consts, consts, values))
    decreases |consts|
  {
    hide Eval;
    values := [];
    if consts != [] {
      var v := Eval(consts[0].value, env).value;
      var env1 := env.(consts := env.consts[consts[0].name := v]);
      var more := ResolveGives(consts[1..], env1);
      values := [v] + more;
      assert values[1..] == more;
      SameValued(env1.consts, consts[1..], more, env, env1);
      ValuedFirst(env.consts, consts, values, env);
    }
  }

  lemma ConstsIff(consts: seq<Const>, env: Env, env': Env)
    requires env.consts == map[]
    ensures ResolveConsts(consts, env) == Ok(env') <==> env' == env.(consts := env'.consts) && ConstsAre(consts, env')
  {
    hide Eval, Known;
    if ResolveConsts(consts, env) == Ok(env') {
      var values := ResolveGives(consts, env);
      ValuedSize(map[], consts, values, env);
      SameValued(map[], consts, values, env, env');
    } else if env' == env.(consts := env'.consts) && ConstsAre(consts, env') {
      var values: seq<Value> :| Valued(map[], consts, values, env') && env'.consts == Known(map[], consts, values);
      SameValued(map[], consts, values, env, env');
      ResolveTakes(consts, env, values);
    }
  }

  // ----- procs -----

  lemma ProcsLast(procs: seq<ProcDef>, fns: map<string, FnDef>, table: map<string, ProcDef>)
    requires ProcsLegal(procs, fns) && procs != [] && ProcsAre(procs[..|procs| - 1], fns, table)
    ensures var last := procs[|procs| - 1]; ProcsAre(procs, fns, table[last.name := last])
  {
    hide Driver.Reserved, WORDS;
    var last := |procs| - 1;
    var front, table' := procs[..last], table[procs[last].name := procs[last]];
    WordsAre(procs[last].name);
    forall i | 0 <= i < last ensures front[i] == procs[i] && procs[i].name != procs[last].name {
    }
    forall name | name in table' ensures exists i :: 0 <= i < |procs| && procs[i].name == name {
      if name != procs[last].name {
        var i :| 0 <= i < last && front[i].name == name;
        assert procs[i].name == name;
      }
    }
  }

  lemma ProcsLegalFront(procs: seq<ProcDef>, fns: map<string, FnDef>)
    requires ProcsLegal(procs, fns) && procs != []
    ensures ProcsLegal(procs[..|procs| - 1], fns)
  {
    hide Driver.Reserved;
  }

  lemma {:induction false} ProcTableIs(procs: seq<ProcDef>, fns: map<string, FnDef>)
    requires ProcsLegal(procs, fns)
    ensures ProcsAre(procs, fns, ProcTable(procs))
    decreases |procs|
  {
    if procs != [] {
      hide ProcsLegal, ProcsAre;
      ProcsLegalFront(procs, fns);
      ProcTableIs(procs[..|procs| - 1], fns);
      ProcsLast(procs, fns, ProcTable(procs[..|procs| - 1]));
    }
  }

  lemma ProcsIff(procs: seq<ProcDef>, fns: map<string, FnDef>, table: map<string, ProcDef>)
    ensures ProcsAre(procs, fns, table) <==> ProcsLegal(procs, fns) && table == ProcTable(procs)
  {
    hide Driver.Reserved, WORDS;
    forall i | 0 <= i < |procs| ensures Driver.Reserved(procs[i].name) <==> procs[i].name in WORDS {
      WordsAre(procs[i].name);
    }
    if ProcsLegal(procs, fns) {
      ProcTableIs(procs, fns);
    }
    if ProcsAre(procs, fns, table) {
      SameTable(procs, fns, table, ProcTable(procs));
    }
  }

  lemma SameTable(procs: seq<ProcDef>, fns: map<string, FnDef>, a: map<string, ProcDef>, b: map<string, ProcDef>)
    requires ProcsAre(procs, fns, a) && ProcsAre(procs, fns, b)
    ensures a == b
  {
    forall name ensures name in a <==> name in b {
    }
    forall name | name in a ensures a[name] == b[name] {
    }
  }

  // ----- modules -----

  lemma SeesIff(m: Module, env: Env, procs: map<string, ProcDef>)
    ensures Sees(m, env, procs) <==> ModuleEnv(m) == Ok(env) && procs == ProcTable(m.procs)
  {
    hide InstallFns, ResolveConsts, ProcsAre, ProcsLegal, ProcTable, ConstsAre, FnsAre, Installed;
    var fns := EMPTY_ENV.(fns := env.fns);
    InstallIff(m.fns, EMPTY_ENV, fns);
    FnsAreInstalled(m.fns, env.fns);
    ProcsIff(m.procs, env.fns, procs);
    ConstsIff(m.consts, fns, env);
    if InstallFns(m.fns, EMPTY_ENV).Ok? {
      InstallIff(m.fns, EMPTY_ENV, InstallFns(m.fns, EMPTY_ENV).value);
    }
    if ModuleEnv(m) == Ok(env) {
      var env1 := InstallFns(m.fns, EMPTY_ENV).value;
      ConstsIff(m.consts, env1, env);
      assert env1 == fns;
    }
  }

  /** What the driver takes for the end of a program. */
  predicate Ends(s: Stmt) { s.Pass? || s.Fail? || (s.Raw? && s.mnemonic == "halt") }

  lemma {:induction false} TrailersCost(e: Emitter, trailers: seq<Trailer>)
    requires e.Valid() && e.budgeted
    ensures Hoists(e, PushTrailers(e, trailers), 2 * |trailers|, 0)
    decreases |trailers|
  {
    hide Push, HaltLine;
    if trailers != [] {
      PushAppends(e, Label(trailers[0].target));
      if Push(e, Label(trailers[0].target)).Ok? {
        var e1 := Push(e, Label(trailers[0].target)).value;
        PushAppends(e1, HaltLine(trailers[0].code));
        if Push(e1, HaltLine(trailers[0].code)).Ok? {
          TrailersCost(Push(e1, HaltLine(trailers[0].code)).value, trailers[1..]);
        }
      }
    }
  }

  lemma EmptyCounts()
    ensures Accounted(EMPTY_POOL, []) && Busy(EMPTY_POOL.busy) == {} && EMPTY_POOL.Valid()
  {
  }

  /** The lines of a test are as many as it weighs, and its error is the one weighing meets first. */
  lemma TestCosts(env: Env, procs: map<string, ProcDef>, stmts: seq<Stmt>)
    requires env.active == []
    ensures match WeighTest(procs, env, stmts)
            case Err(x) => EmitTest(Start(true, procs, env), stmts) == Err(x)
            case Ok(w) =>
              var r := EmitTest(Start(true, procs, env), stmts);
              r.Ok? && |r.value.lines| == w.lines && r.value.expansions == w.expansions
  {
    hide EmitBody, PushTrailers, WeighBody, Accounted, Busy, P.Write;
    EmptyCounts();
    var e := Start(true, procs, env);
    var e2 := Push(Push(e, PROLOGUE[0]).value, PROLOGUE[1]).value;
    assert Steady(e2) && LoadOf(e2) == Load(0, 0, 2, 0, 0);
    BodyCosts(e2, stmts);
    if EmitBody(e2, stmts).Ok? {
      var e3 := EmitBody(e2, stmts).value;
      TrailersCost(e3.(trailers := []), e3.trailers);
    }
  }

  /**
   * The compiler accepts a module exactly when its names are legal, its constants have values, it
   * has one test, that test says how it ends, and it can be weighed.
   */
  lemma AcceptedIff(m: Module)
    ensures Lower(m).Ok?
       <==> exists env, procs :: && Sees(m, env, procs) && |m.tests| == 1
                                 && (exists k :: 0 <= k < |m.tests[0].stmts| && Ends(m.tests[0].stmts[k]))
                                 && WeighTest(procs, env, m.tests[0].stmts).Ok?
  {
    hide ModuleEnv, ProcTable, Sees, WeighTest, Lower;
    if ModuleEnv(m).Ok? {
      SeesIff(m, ModuleEnv(m).value, ProcTable(m.procs));
      LoweredIs(m, ModuleEnv(m).value, ProcTable(m.procs));
    } else {
      NoEnv(m);
    }
    forall env, procs | Sees(m, env, procs) ensures ModuleEnv(m) == Ok(env) && procs == ProcTable(m.procs) {
      SeesIff(m, env, procs);
    }
  }

  lemma NoEnv(m: Module)
    requires ModuleEnv(m).Err?
    ensures Lower(m).Err?
  {
  }

  /** What a module with legal names and constants is lowered to, or why it is not. */
  lemma LoweredIs(m: Module, env: Env, procs: map<string, ProcDef>)
    requires Sees(m, env, procs)
    ensures !(|m.tests| == 1 && exists k :: 0 <= k < |m.tests[0].stmts| && Ends(m.tests[0].stmts[k])) ==>
              Lower(m) == Err(Rejected)
    ensures |m.tests| == 1 && (exists k :: 0 <= k < |m.tests[0].stmts| && Ends(m.tests[0].stmts[k])) ==>
              match WeighTest(procs, env, m.tests[0].stmts)
              case Err(x) => Lower(m) == Err(x)
              case Ok(w) => Lower(m).Ok? && |Lower(m).value| == w.lines
  {
    hide EmitTest, ModuleEnv, ProcTable, Sees, WeighTest, Halts;
    SeesIff(m, env, procs);
    if |m.tests| == 1 {
      SeesNothingActive(m, env, procs);
      TestCosts(env, procs, m.tests[0].stmts);
      SameEnds(m.tests[0].stmts);
    }
  }

  lemma SeesNothingActive(m: Module, env: Env, procs: map<string, ProcDef>)
    requires Sees(m, env, procs)
    ensures env.active == []
  {
    hide FnsAre, ProcsAre, ConstsAre;
  }

  lemma SameEnds(stmts: seq<Stmt>)
    ensures Halts(stmts) <==> exists k :: 0 <= k < |stmts| && Ends(stmts[k])
  {
    if Halts(stmts) {
      var k :| 0 <= k < |stmts| && Terminator(stmts[k]);
      assert Ends(stmts[k]);
    }
    if k :| 0 <= k < |stmts| && Ends(stmts[k]) {
      assert Terminator(stmts[k]);
    }
  }
}
