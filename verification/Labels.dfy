/** Every label the compiler generates is defined once. */
module Labels {
  import opened Prelude
  import opened Text
  import opened Asm
  import opened Ast
  import opened ConstEval
  import opened Registers
  import opened Emit
  import P = Printer
  import opened Verdicts
  import C = Crc8

  ghost predicate UniqueLabels(lines: seq<Line>) {
    forall i, j :: 0 <= i < j < |lines| && lines[i].Label? && lines[j].Label? ==> lines[i] != lines[j]
  }

  // ----- generated names -----

  ghost predicate IsWait(name: string, bound: nat) { exists n :: 0 <= n < bound && name == WaitLabel(n) }

  ghost predicate IsFail(name: string, bound: nat) { exists n :: 0 <= n < bound && name == FailLabel(n) }

  lemma NamesDiffer(m: nat, n: nat)
    ensures WaitLabel(m) == WaitLabel(n) <==> m == n
    ensures FailLabel(m) == FailLabel(n) <==> m == n
    ensures WaitLabel(m) != FailLabel(n)
    ensures WaitLabel(m) != "_start" && FailLabel(m) != "_start"
  {
    hide Dec;
    assert WaitLabel(m)[6..] == Dec(m) && WaitLabel(n)[6..] == Dec(n);
    assert FailLabel(m)[6..] == Dec(m) && FailLabel(n)[6..] == Dec(n);
    if Dec(m) == Dec(n) {
      DecInjective(m, n);
    }
    assert WaitLabel(m)[2] == 'w' && FailLabel(n)[2] == 'f';
    assert WaitLabel(m)[1] == '_' && FailLabel(m)[1] == '_' && "_start"[1] == 's';
  }

  lemma FreshWait(n: nat)
    ensures !IsWait(WaitLabel(n), n) && IsWait(WaitLabel(n), n + 1)
  {
    hide WaitLabel;
    forall m | 0 <= m < n ensures WaitLabel(m) != WaitLabel(n) {
      NamesDiffer(m, n);
    }
  }

  lemma FreshFail(n: nat)
    ensures !IsFail(FailLabel(n), n) && IsFail(FailLabel(n), n + 1)
  {
    hide FailLabel;
    forall m | 0 <= m < n ensures FailLabel(m) != FailLabel(n) {
      NamesDiffer(m, n);
    }
  }

  lemma Weaken(name: string, m: nat, n: nat)
    requires m <= n
    ensures IsWait(name, m) ==> IsWait(name, n)
    ensures IsFail(name, m) ==> IsFail(name, n)
  {
    hide WaitLabel, FailLabel;
  }

  // ----- the invariant -----

  function TrailerNames(trailers: seq<Trailer>): (r: seq<string>)
    ensures |r| == |trailers|
    ensures forall k :: 0 <= k < |r| ==> r[k] == trailers[k].target
  {
    if trailers == [] then [] else TrailerNames(trailers[..|trailers| - 1]) + [trailers[|trailers| - 1].target]
  }

  function PendingNames(pending: seq<Deferred>): (r: seq<string>)
    ensures |r| == |pending|
    ensures forall k :: 0 <= k < |r| ==> r[k] == pending[k].target
  {
    if pending == [] then [] else PendingNames(pending[..|pending| - 1]) + [pending[|pending| - 1].target]
  }

  ghost predicate Distinct(names: seq<string>) {
    forall i, j :: 0 <= i < j < |names| ==> names[i] != names[j]
  }

  /** The labels of hoisted and of pending verdicts. */
  function FailNames(e: Emitter): seq<string> { TrailerNames(e.trailers) + PendingNames(Pending(e)) }

  ghost predicate LinesLabelled(lines: seq<Line>, gensym: nat) {
    && UniqueLabels(lines)
    && (forall i :: 0 <= i < |lines| && lines[i].Label? ==> lines[i].name == "_start" || IsWait(lines[i].name, gensym))
    && (forall i :: 0 <= i < |lines| && lines[i].Directive? ==> lines[i] == PROLOGUE[0])
  }

  ghost predicate NamesFresh(names: seq<string>, gensym: nat) {
    Distinct(names) && forall k :: 0 <= k < |names| ==> IsFail(names[k], gensym)
  }

  ghost predicate Labelled(e: Emitter) {
    LinesLabelled(e.lines, e.gensym) && NamesFresh(FailNames(e), e.gensym)
  }

  // ----- what keeps it -----

  lemma PushOp(lines: seq<Line>, line: Line, gensym: nat)
    requires LinesLabelled(lines, gensym) && line.Op?
    ensures LinesLabelled(lines + [line], gensym)
  {
    hide IsWait;
  }

  lemma PushWait(lines: seq<Line>, gensym: nat)
    requires LinesLabelled(lines, gensym)
    ensures LinesLabelled(lines + [Label(WaitLabel(gensym))], gensym + 1)
  {
    hide WaitLabel, IsWait;
    FreshWait(gensym);
    NamesDiffer(gensym, gensym);
    forall i | 0 <= i < |lines| && lines[i].Label?
      ensures lines[i].name == "_start" || IsWait(lines[i].name, gensym + 1)
    {
      Weaken(lines[i].name, gensym, gensym + 1);
    }
  }

  lemma GrowLines(lines: seq<Line>, m: nat, n: nat)
    requires LinesLabelled(lines, m) && m <= n
    ensures LinesLabelled(lines, n)
  {
    hide IsWait;
    forall i | 0 <= i < |lines| && lines[i].Label? ensures lines[i].name == "_start" || IsWait(lines[i].name, n) {
      Weaken(lines[i].name, m, n);
    }
  }

  lemma GrowNames(names: seq<string>, m: nat, n: nat)
    requires NamesFresh(names, m) && m <= n
    ensures NamesFresh(names, n)
  {
    hide IsFail;
    forall k | 0 <= k < |names| ensures IsFail(names[k], n) {
      Weaken(names[k], m, n);
    }
  }

  lemma AddName(names: seq<string>, gensym: nat)
    requires NamesFresh(names, gensym)
    ensures NamesFresh(names + [FailLabel(gensym)], gensym + 1)
  {
    hide FailLabel, IsFail;
    GrowNames(names, gensym, gensym + 1);
    FreshFail(gensym);
  }

  lemma PushLabelled(e: Emitter, line: Line, e': Emitter)
    requires e.Valid() && Labelled(e) && line.Op? && e' == e.(lines := e.lines + [line], asm := e'.asm)
    ensures Labelled(e')
  {
    hide LinesLabelled, NamesFresh;
    PushOp(e.lines, line, e.gensym);
  }

  lemma {:induction false} PutLabelled(e: Emitter, bytes: seq<byte>, e': Emitter)
    requires e.Valid() && Labelled(e) && PushBytes(e, bytes) == Ok(e')
    ensures Labelled(e')
    decreases |bytes|
  {
    hide Labelled, P.Write;
    if bytes != [] {
      var e1 := Push(e, PutLine(bytes[0])).value;
      PushLabelled(e, PutLine(bytes[0]), e1);
      PutLabelled(e1, bytes[1..], e');
    }
  }

  /** Labels do not depend on the register pool. */
  lemma PoolIrrelevant(e: Emitter, p: Pool)
    requires Labelled(e)
    ensures Labelled(e.(pool := p))
  {
    hide LinesLabelled, NamesFresh;
  }

  lemma RecvOneLabelled(e: Emitter, target: RecvTarget, e': Emitter)
    requires e.Valid() && Labelled(e) && RecvOne(e, target) == Ok(e')
    ensures Labelled(e')
  {
    hide Labelled, TakeReg, P.Write, Free;
    var t := TakeReg(e, NameOf(target)).value;
    var e0 := e.(pool := t.pool);
    PoolIrrelevant(e, t.pool);
    var e1 := Push(e0, GetLine(t.reg)).value;
    PushLabelled(e0, GetLine(t.reg), e1);
    PoolIrrelevant(e1, e'.pool);
  }

  lemma {:induction false} RecvAllLabelled(e: Emitter, targets: seq<RecvTarget>, e': Emitter)
    requires e.Valid() && Labelled(e) && RecvAll(e, targets) == Ok(e')
    ensures Labelled(e')
    decreases |targets|
  {
    hide Labelled, RecvOne;
    if targets != [] {
      var e1 := RecvOne(e, targets[0]).value;
      RecvOneLabelled(e, targets[0], e1);
      RecvAllLabelled(e1, targets[1..], e');
    }
  }

  lemma PollStartLabelled(e: Emitter, e': Emitter)
    requires e.Valid() && Labelled(e) && PollStart(e, WaitLabel(e.gensym)) == Ok(e')
    ensures Labelled(e')
  {
    hide LinesLabelled, NamesFresh, WaitLabel, TrailerNames, PendingNames;
    var g := e.gensym;
    PushWait(e.lines, g);
    PushOp(e.lines + [Label(WaitLabel(g))], CRC_RESET, g + 1);
    GrowNames(FailNames(e), g, g + 1);
    assert FailNames(e') == FailNames(e);
  }

  lemma PollAgainLabelled(e: Emitter, loop: string, resp: nat, e': Emitter)
    requires e.Valid() && Labelled(e) && PollAgain(e, loop, resp) == Ok(e')
    ensures Labelled(e')
  {
    hide Labelled, Alloc, P.Write, Free;
    var k := Alloc(e.pool).value;
    PoolIrrelevant(e, k.pool);
    var e0 := e.(pool := k.pool);
    var li := Op("li", [Reg(k.reg), Num(WAIT_STATE_CODE)]);
    var e1 := Push(e0, li).value;
    PushLabelled(e0, li, e1);
    var beq := Op("beq", [Reg(resp), Reg(k.reg), Ident(loop)]);
    var e2 := Push(e1, beq).value;
    PushLabelled(e1, beq, e2);
    PoolIrrelevant(e2, e'.pool);
  }

  lemma WaitStateLabelled(e: Emitter, bind: Option<string>, e': Emitter)
    requires e.Valid() && Labelled(e) && LowerWaitState(e, bind) == Ok(e')
    ensures Labelled(e')
  {
    hide Labelled, TakeReg, PollStart, PollAgain, P.Write, WaitLabel, Free;
    var loop := WaitLabel(e.gensym);
    var e1 := PollStart(e, loop).value;
    PollStartLabelled(e, e1);
    var resp := TakeReg(e1, bind).value;
    PoolIrrelevant(e1, resp.pool);
    var e2 := Push(e1.(pool := resp.pool), GetLine(resp.reg)).value;
    PushLabelled(e1.(pool := resp.pool), GetLine(resp.reg), e2);
    var e3 := PollAgain(e2, loop, resp.reg).value;
    PollAgainLabelled(e2, loop, resp.reg, e3);
    PoolIrrelevant(e3, e'.pool);
  }

  lemma DeferLabelled(e: Emitter, reg: nat, code: byte)
    requires e.Valid() && Labelled(e) && e.frames != [] && 1 <= reg < NUM_REGS
    ensures Labelled(Defer(e.(gensym := e.gensym + 1), Deferred(reg, FailLabel(e.gensym), code)))
  {
    hide LinesLabelled, NamesFresh, FailLabel, TrailerNames, PendingNames;
    var d := Deferred(reg, FailLabel(e.gensym), code);
    var e' := Defer(e.(gensym := e.gensym + 1), d);
    GrowLines(e.lines, e.gensym, e.gensym + 1);
    AddName(FailNames(e), e.gensym);
    assert FailNames(e') == FailNames(e) + [d.target];
  }

  lemma ExpectLabelled(e: Emitter, elseCode: Expr, e': Emitter)
    requires e.Valid() && Labelled(e) && LowerExpect(e, elseCode) == Ok(e')
    ensures Labelled(e')
  {
    hide Labelled, Alloc, EvalByte, P.Write, FailLabel, Defer;
    var discard := Alloc(e.pool).value;
    PoolIrrelevant(e, discard.pool);
    var e1 := Push(e.(pool := discard.pool), GetLine(discard.reg)).value;
    PushLabelled(e.(pool := discard.pool), GetLine(discard.reg), e1);
    var e2 := FreeIf(e1, true, discard.reg);
    PoolIrrelevant(e1, e2.pool);
    var res := Alloc(e2.pool).value;
    PoolIrrelevant(e2, res.pool);
    var rdsr := Op("rdsr", [Reg(res.reg), Ident("crc")]);
    var e3 := Push(e2.(pool := res.pool), rdsr).value;
    PushLabelled(e2.(pool := res.pool), rdsr, e3);
    DeferLabelled(e3, res.reg, EvalByte(elseCode, e.env).value);
  }

  lemma SimpleLabelled(e: Emitter, s: Stmt, e': Emitter)
    requires !s.Frame? && !s.CallProc? && !s.Repeat?
    requires e.Valid() && Labelled(e) && EmitSimple(e, s) == Ok(e')
    ensures Labelled(e')
  {
    hide Labelled, P.Write, PushBytes, RecvAll, LowerWaitState, LowerExpect, EvalBytes, EvalSends, P.ReadAll;
    match s
    case Pass => PushLabelled(e, HaltLine(0), e');
    case Fail(code) => PushLabelled(e, CopiedLine(HALT, [code]), e');
    case Raw(mnemonic, operands) => PushLabelled(e, CopiedLine(mnemonic, operands), e');
    case Config(keywords) => PushLabelled(e, CopiedLine(SET_CONFIG, keywords), e');
    case Send(bytes, appendCrc) =>
      var b := EvalBytes(bytes, e.env).value;
      PutLabelled(e, if appendCrc then b + [C.Crc8(b)] else b, e');
    case CrcRegion(sends) =>
      var b := EvalSends(sends, e.env).value;
      PutLabelled(e, b + [C.Crc8(b)], e');
    case Recv(targets) => RecvAllLabelled(e, targets, e');
    case WaitState(bind) => WaitStateLabelled(e, bind, e');
    case Expect(elseCode) => ExpectLabelled(e, elseCode, e');
  }

  // ----- frames and expansions -----

  lemma OpenLabelled(e: Emitter, e': Emitter)
    requires e.Valid() && Labelled(e) && e.frames == [] && OpenFrame(e) == Ok(e')
    ensures Labelled(e')
  {
    hide LinesLabelled, NamesFresh;
    PushOp(e.lines, CS_ASSERT, e.gensym);
    assert FailNames(e') == FailNames(e);
  }

  /** Closing a frame turns its pending verdicts, in order, into trailers. */
  lemma {:induction false} VerdictsLabelled(e: Emitter, deferred: seq<Deferred>, e': Emitter)
    requires e.Valid() && LinesLabelled(e.lines, e.gensym) && PushVerdicts(e, deferred) == Ok(e')
    ensures LinesLabelled(e'.lines, e'.gensym) && e'.gensym == e.gensym
    ensures TrailerNames(e'.trailers) == TrailerNames(e.trailers) + PendingNames(deferred)
    decreases |deferred|
  {
    hide LinesLabelled, TrailerNames, PendingNames, RegName;
    if deferred == [] {
      assert PendingNames(deferred) == [];
    } else {
      var d := deferred[0];
      var e1 := Push(e, BnezLine(d)).value;
      PushOp(e.lines, BnezLine(d), e.gensym);
      var trailers := e1.trailers + [Trailer(d.target, d.code)];
      VerdictsLabelled(e1.(trailers := trailers), deferred[1..], e');
      VerdictNames(e.trailers, deferred);
    }
  }

  lemma VerdictNames(trailers: seq<Trailer>, deferred: seq<Deferred>)
    requires deferred != []
    ensures TrailerNames(trailers + [Trailer(deferred[0].target, deferred[0].code)]) + PendingNames(deferred[1..])
         == TrailerNames(trailers) + PendingNames(deferred)
  {
    hide TrailerNames, PendingNames;
  }

  lemma CloseLabelled(e: Emitter, e': Emitter)
    requires e.Valid() && Labelled(e) && |e.frames| == 1 && CloseFrame(e) == Ok(e')
    ensures Labelled(e')
  {
    hide LinesLabelled, NamesFresh, PushVerdicts, Exit;
    var e0 := e.(frames := []);
    assert e.frames[..0] == [];
    var e1 := Push(e0, CS_DEASSERT).value;
    PushOp(e.lines, CS_DEASSERT, e.gensym);
    var e2 := PushVerdicts(e1, e.frames[0]).value;
    VerdictsLabelled(e1, e.frames[0], e2);
    assert FailNames(e') == FailNames(e);
  }

  lemma ContextIrrelevant(e: Emitter, e': Emitter)
    requires Labelled(e)
    requires e'.lines == e.lines && e'.gensym == e.gensym && e'.trailers == e.trailers && e'.frames == e.frames
    ensures Labelled(e')
  {
    hide LinesLabelled, NamesFresh;
  }

  lemma {:induction false} StmtLabelled(e: Emitter, s: Stmt, e': Emitter)
    requires Sound(e) && Labelled(e) && EmitStmt(e, s) == Ok(e')
    ensures Labelled(e')
    decreases IdleProcs(e), s, 0
  {
    hide Labelled, Sound, EmitSimple, OpenFrame, CloseFrame, EvalInt, EmitBody, EmitRepeat, EmitCall;
    match s
    case Frame(body) =>
      var e1 := OpenFrame(e).value;
      assert IdleProcs(e1) == IdleProcs(e);
      OpenSound(e, e1, s);
      var e2 := EmitBody(e1, body).value;
      BodySound(e1, body, e2);
      OpenLabelled(e, e1);
      BodyLabelled(e1, body, e2);
      CloseLabelled(e2, e');
    case CallProc(name, args) => CallLabelled(e, name, args, e');
    case Repeat(count, body) => RepeatLabelled(e, EvalInt(count, e.env).value, body, e');
    case _ => SimpleLabelled(e, s, e');
  }

  lemma {:induction false} BodyLabelled(e: Emitter, body: seq<Stmt>, e': Emitter)
    requires Sound(e) && Labelled(e) && EmitBody(e, body) == Ok(e')
    ensures Labelled(e')
    decreases IdleProcs(e), body, 0
  {
    hide Labelled, Sound, EmitStmt;
    if body != [] {
      var e1 := EmitStmt(e, body[0]).value;
      StmtSound(e, body[0], e1);
      StmtLabelled(e, body[0], e1);
      assert IdleProcs(e1) == IdleProcs(e);
      BodyLabelled(e1, body[1..], e');
    }
  }

  lemma {:induction false} CallLabelled(e: Emitter, name: string, args: seq<Arg>, e': Emitter)
    requires Sound(e) && Labelled(e) && EmitCall(e, name, args) == Ok(e')
    ensures Labelled(e')
    decreases IdleProcs(e), args, 0
  {
    hide Labelled, EmitBody, BindArgs, ReserveAll, Exit;
    var p := e.procs[name];
    var bindings := BindArgs(name, p.params, args, e.env).value;
    var e1 := EnterExpansion(e).value;
    var e2 := Inlined(e1, name, bindings);
    assert name in IdleProcs(e) && name !in IdleProcs(e2) && IdleProcs(e2) < IdleProcs(e);
    ContextIrrelevant(e, e2);
    var e3 := EmitBody(e2, p.body).value;
    BodyLabelled(e2, p.body, e3);
    ContextIrrelevant(e3, e');
  }

  lemma {:induction false} RepeatLabelled(e: Emitter, n: nat, body: seq<Stmt>, e': Emitter)
    requires Sound(e) && Labelled(e) && EmitRepeat(e, n, body) == Ok(e')
    ensures Labelled(e')
    decreases IdleProcs(e), body, 1, n
  {
    hide Labelled, EmitBody, ReserveAll, Exit;
    if n > 0 {
      var e1 := EnterExpansion(e).value;
      assert IdleProcs(e1) == IdleProcs(e);
      ContextIrrelevant(e, e1);
      var e2 := EmitBody(e1, body).value;
      BodySound(e1, body, e2);
      BodyLabelled(e1, body, e2);
      var e3 := ExitExpansion(e2);
      ExitSound(e2);
      ContextIrrelevant(e2, e3);
      assert IdleProcs(e3) == IdleProcs(e);
      RepeatLabelled(e3, n - 1, body, e');
    }
  }

  // ----- the whole program -----

  /** The lines of the trailers: each label followed by its `halt`. */
  function TrailerLines(trailers: seq<Trailer>): seq<Line> {
    seq(2 * |trailers|, i requires 0 <= i < 2 * |trailers| =>
      if i % 2 == 0 then Label(trailers[i / 2].target) else HaltLine(trailers[i / 2].code))
  }

  lemma TrailerLinesStep(trailers: seq<Trailer>)
    requires trailers != []
    ensures TrailerLines(trailers)
         == [Label(trailers[0].target), HaltLine(trailers[0].code)] + TrailerLines(trailers[1..])
  {
    hide HaltLine;
    var all := TrailerLines(trailers);
    var rest := TrailerLines(trailers[1..]);
    forall i | 2 <= i < |all| ensures all[i] == rest[i - 2] {
      assert trailers[1..][(i - 2) / 2] == trailers[i / 2];
    }
    assert all[0] == Label(trailers[0].target) && all[1] == HaltLine(trailers[0].code);
  }

  lemma {:induction false} PushTrailersLines(e: Emitter, trailers: seq<Trailer>, e': Emitter)
    requires e.Valid() && PushTrailers(e, trailers) == Ok(e')
    ensures e'.lines == e.lines + TrailerLines(trailers)
    ensures e'.asm == e.asm + P.WriteAll(TrailerLines(trailers), true)
    decreases |trailers|
  {
    hide HaltLine, TrailerLines, P.Write, P.WriteAll, Push;
    if trailers == [] {
      NoTrailerLines();
      P.WriteNone(true);
    } else {
      var t := trailers[0];
      var e1 := Push(e, Label(t.target)).value;
      var e2 := Push(e1, HaltLine(t.code)).value;
      PushTrailersLines(e2, trailers[1..], e');
      TwoPushed(e, Label(t.target), e1, HaltLine(t.code), e2);
      TrailerLinesStep(trailers);
      var rest := TrailerLines(trailers[1..]);
      Assoc(e.lines, [Label(t.target), HaltLine(t.code)], rest);
      P.WriteTwo(Label(t.target), HaltLine(t.code), rest, true);
      Assoc(e.asm, [P.Write(Label(t.target), true), P.Write(HaltLine(t.code), true)], P.WriteAll(rest, true));
    }
  }

  lemma TwoPushed(e: Emitter, a: Line, e1: Emitter, b: Line, e2: Emitter)
    requires e.Valid() && Push(e, a) == Ok(e1) && Push(e1, b) == Ok(e2)
    ensures e2.lines == e.lines + [a, b] && e2.asm == e.asm + [P.Write(a, true), P.Write(b, true)]
  {
    hide P.Write;
  }

  lemma NoTrailerLines()
    ensures TrailerLines([]) == []
  {
  }

  /** Labels occur in trailers at even places only. */
  lemma TrailerLabels(trailers: seq<Trailer>, i: nat)
    requires i < |TrailerLines(trailers)| && TrailerLines(trailers)[i].Label?
    ensures i % 2 == 0 && i / 2 < |trailers| && TrailerLines(trailers)[i] == Label(trailers[i / 2].target)
  {
  }

  lemma BodyAndTrailersDiffer(lines: seq<Line>, trailers: seq<Trailer>, gensym: nat, i: nat, j: nat)
    requires LinesLabelled(lines, gensym) && NamesFresh(TrailerNames(trailers), gensym)
    requires i < |lines| && lines[i].Label?
    requires j < |TrailerLines(trailers)| && TrailerLines(trailers)[j].Label?
    ensures lines[i] != TrailerLines(trailers)[j]
  {
    hide UniqueLabels, Distinct, TrailerLines, WaitLabel, FailLabel;
    TrailerLabels(trailers, j);
    var name := TrailerNames(trailers)[j / 2];
    var n :| 0 <= n < gensym && name == FailLabel(n);
    if lines[i].name == "_start" {
      NamesDiffer(n, n);
    } else {
      var m :| 0 <= m < gensym && lines[i].name == WaitLabel(m);
      NamesDiffer(m, n);
    }
  }

  lemma TrailersDiffer(trailers: seq<Trailer>, i: nat, j: nat)
    requires Distinct(TrailerNames(trailers))
    requires i < j < |TrailerLines(trailers)| && TrailerLines(trailers)[i].Label? && TrailerLines(trailers)[j].Label?
    ensures TrailerLines(trailers)[i] != TrailerLines(trailers)[j]
  {
    hide TrailerLines, TrailerNames;
    TrailerLabels(trailers, i);
    TrailerLabels(trailers, j);
    assert TrailerNames(trailers)[i / 2] != TrailerNames(trailers)[j / 2];
  }

  lemma ProgramLabels(lines: seq<Line>, trailers: seq<Trailer>, gensym: nat)
    requires LinesLabelled(lines, gensym) && NamesFresh(TrailerNames(trailers), gensym)
    ensures UniqueLabels(lines + TrailerLines(trailers))
  {
    hide TrailerLines, TrailerNames, IsWait, IsFail;
    var all := lines + TrailerLines(trailers);
    forall i, j | 0 <= i < j < |all| && all[i].Label? && all[j].Label? ensures all[i] != all[j] {
      if j >= |lines| {
        if i < |lines| {
          BodyAndTrailersDiffer(lines, trailers, gensym, i, j - |lines|);
        } else {
          TrailersDiffer(trailers, i - |lines|, j - |lines|);
        }
      }
    }
  }

  lemma StartLabelled(e: Emitter, e2: Emitter)
    requires e.Valid() && e.lines == [] && e.frames == [] && e.trailers == []
    requires e2 == e.(lines := PROLOGUE, asm := e2.asm)
    ensures Labelled(e2)
  {
  }
}
