/** The compiler lowers exactly what can be weighed, and fails where weighing does, with the same error. */
module Acceptance {
  import opened Prelude
  import opened Text
  import opened Asm
  import opened Ast
  import opened ConstEval
  import opened Registers
  import opened Emit
  import opened Interp
  import opened Verdicts
  import opened Ownership
  import opened Correct
  import opened Conservation
  import opened Weight
  import C = Crc8
  import P = Printer

  // ----- counting registers -----

  function UpTo(n: nat): (s: set<nat>)
    ensures |s| == n && forall k: nat :: k in s <==> 1 <= k <= n
  {
    if n == 0 then {} else UpTo(n - 1) + {n}
  }

  function Busy(busy: seq<bool>): set<nat> { set n: nat | n in UpTo(15) && n < |busy| && busy[n] }

  lemma {:induction false} SubsetSize(a: set<nat>, b: set<nat>)
    requires a <= b
    ensures |a| <= |b| && (|a| == |b| ==> a == b)
  {
    if a != {} {
      var x :| x in a;
      SubsetSize(a - {x}, b - {x});
      assert a == (a - {x}) + {x} && b == (b - {x}) + {x};
    }
  }

  /** A register is to be had exactly while fewer than fifteen are held. */
  lemma AllocIff(p: Pool)
    requires p.Valid()
    ensures Alloc(p).Some? <==> |Busy(p.busy)| < 15
    ensures Alloc(p).Some? ==> |Busy(Alloc(p).value.pool.busy)| == |Busy(p.busy)| + 1
  {
    hide LowestFree, UpTo;
    SubsetSize(Busy(p.busy), UpTo(15));
    match Alloc(p)
    case None => assert Busy(p.busy) == UpTo(15);
    case Some(t) =>
      assert t.reg in UpTo(15) && t.reg !in Busy(p.busy);
      assert Busy(t.pool.busy) == Busy(p.busy) + {t.reg};
  }

  lemma LendIff(p: Pool, name: Option<string>)
    requires p.Valid()
    ensures Lend(p, name).Some? <==> |Busy(p.busy)| < 15
    ensures Lend(p, name).Some? ==> |Busy(Lend(p, name).value.pool.busy)| == |Busy(p.busy)| + 1
  {
    hide Alloc, Busy;
    AllocIff(p);
    if Lend(p, name).Some? {
      assert Lend(p, name).value.pool.busy == Alloc(p).value.pool.busy;
    }
  }

  // ----- what is weighed of an emitter -----

  function LoadOf(e: Emitter): Load {
    Load(|Busy(e.pool.busy)|, |Pending(e)|, |e.lines|, |e.trailers|, e.expansions)
  }

  /** Between any two statements every busy register is accounted for. */
  ghost predicate Steady(e: Emitter): (b: bool)
    ensures b ==> Sound(e) && e.Valid()
  {
    && Sound(e) && Accounted(e.pool, Pending(e)) && DistinctRegs(Pending(e))
    && e.budgeted && |e.lines| <= 4096 && e.expansions <= 65536
  }

  ghost predicate Moved(e: Emitter, e': Emitter) {
    Extends(e.pool, e'.pool) && Defers(e.pool.busy, Pending(e), Pending(e'))
  }

  /** The step fails as weighing does, and otherwise costs what is weighed. */
  ghost predicate Costs(e: Emitter, r: Emitted, w: Weighed)
    requires Steady(e)
  {
    match w
    case Err(x) => r == Err(x)
    case Ok(at) => r.Ok? && Steady(r.value) && Moved(e, r.value) && LoadOf(r.value) == at
  }

  lemma MovedSelf(e: Emitter)
    requires e.Valid()
    ensures Moved(e, e)
  {
  }

  lemma MovedTrans(e: Emitter, e1: Emitter, e2: Emitter)
    requires Steady(e) && Steady(e1) && Moved(e, e1) && Moved(e1, e2)
    ensures Moved(e, e2)
  {
    hide Extends, Accounted, Defers, Sound;
    ExtendsTrans(e.pool, e1.pool, e2.pool);
    forall r | 0 <= r < 16 && e.pool.busy[r] ensures e1.pool.busy[r] {
      ExtendsBusy(e.pool, e1.pool, Pending(e), Pending(e1), r);
    }
    DefersTrans(e.pool.busy, e1.pool.busy, Pending(e), Pending(e1), Pending(e2));
  }

  // ----- statements without a body -----

  /** `n` lines more, if they fit, and nothing else. */
  ghost predicate Appended(e: Emitter, r: Emitted, n: nat) {
    && (n > 0 && |e.lines| + n > 4096 ==> r == Err(LineBudget))
    && (|e.lines| + n <= 4096 ==>
          r.Ok? && r.value == e.(lines := r.value.lines, asm := r.value.asm) && |r.value.lines| == |e.lines| + n)
  }

  lemma AppendedCosts(e: Emitter, r: Emitted, n: nat)
    requires Steady(e) && Appended(e, r, n)
    ensures Costs(e, r, Lines(LoadOf(e), n))
  {
    hide Accounted, DistinctRegs, Extends, Busy;
    if r.Ok? {
      MovedSelf(e);
      ExtendsSelf(e.pool);
    }
  }

  lemma PushAppends(e: Emitter, line: Line)
    requires e.Valid() && e.budgeted
    ensures Appended(e, Push(e, line), 1)
  {
    hide P.Write;
  }

  lemma {:induction false} PutsAppend(e: Emitter, bytes: seq<byte>)
    requires e.Valid() && e.budgeted
    ensures Appended(e, PushBytes(e, bytes), |bytes|)
    decreases |bytes|
  {
    hide Push;
    if bytes != [] {
      PushAppends(e, PutLine(bytes[0]));
      if Push(e, PutLine(bytes[0])).Ok? {
        PutsAppend(Push(e, PutLine(bytes[0])).value, bytes[1..]);
      }
    }
  }

  lemma {:induction false} SizesAre(sends: seq<Expr>, env: Env)
    ensures Sizes(sends, env) == match EvalSends(sends, env) case Err(x) => Err(x) case Ok(b) => Ok(|b|)
    decreases |sends|
  {
    hide EvalBytes;
    if sends != [] {
      SizesAre(sends[1..], env);
    }
  }

  // Receiving.

  lemma TakeSteady(e: Emitter, name: Option<string>)
    requires Steady(e) && TakeReg(e, name).Some?
    ensures var p := TakeReg(e, name).value.pool; Accounted(p, Pending(e)) && Extends(e.pool, p)
    ensures name.None? ==> Free(TakeReg(e, name).value.pool, TakeReg(e, name).value.reg) == e.pool
  {
    hide Accounted, Extends, Alloc, BindName, DistinctRegs;
    match name
    case None => AllocAccounted(e.pool, Pending(e)); AllocFree(e.pool, Pending(e));
    case Some(n) => BindAccounted(e.pool, Pending(e), n);
  }

  /** A step that changes lines and pool only. */
  lemma PoolCost(e: Emitter, e': Emitter, at: Load)
    requires Steady(e) && e' == e.(lines := e'.lines, asm := e'.asm, pool := e'.pool, gensym := e'.gensym)
    requires e'.Valid() && Sound(e') && Accounted(e'.pool, Pending(e)) && Extends(e.pool, e'.pool)
    requires |e'.lines| <= 4096 && LoadOf(e') == at
    ensures Costs(e, Ok(e'), Ok(at))
  {
    hide Accounted, DistinctRegs, Extends, Busy;
  }

  lemma RecvOneCost(e: Emitter, target: RecvTarget)
    requires Steady(e)
    ensures Costs(e, RecvOne(e, target), WeighTargets([target], LoadOf(e)))
  {
    hide Accounted, DistinctRegs, Extends, Busy, Lend, Free, P.Write, Sound;
    LendIff(e.pool, NameOf(target));
    assert [target][1..] == [];
    if TakeReg(e, NameOf(target)).Some? && RecvOne(e, target).Ok? {
      var e' := RecvOne(e, target).value;
      TakeSteady(e, NameOf(target));
      RecvOneSound(e, target, e');
      ExtendsSelf(e.pool);
      PoolCost(e, e', LoadOf(e'));
    }
  }

  /** Costs add up. */
  lemma CostsThen(e: Emitter, e1: Emitter, r: Emitted, w1: Load, w: Weighed)
    requires e1.Valid() && Steady(e) && Costs(e, Ok(e1), Ok(w1)) && Costs(e1, r, w)
    ensures Costs(e, r, w)
  {
    hide Steady, Moved, LoadOf;
    if w.Ok? {
      MovedTrans(e, e1, r.value);
    }
  }

  lemma NoCost(e: Emitter)
    requires Steady(e)
    ensures Costs(e, Ok(e), Ok(LoadOf(e)))
  {
    hide Steady, LoadOf, Moved;
    MovedSelf(e);
  }

  lemma TargetsOne(target: RecvTarget, rest: seq<RecvTarget>, at: Load)
    ensures WeighTargets([target], at).Err? ==> WeighTargets([target] + rest, at) == WeighTargets([target], at)
    ensures WeighTargets([target], at).Ok? ==>
              WeighTargets([target] + rest, at) == WeighTargets(rest, WeighTargets([target], at).value)
  {
    assert ([target] + rest)[1..] == rest && [target][1..] == [];
  }

  lemma {:induction false} RecvAllCost(e: Emitter, targets: seq<RecvTarget>)
    requires Steady(e)
    ensures Costs(e, RecvAll(e, targets), WeighTargets(targets, LoadOf(e)))
    decreases |targets|
  {
    hide Steady, Moved, LoadOf, RecvOne;
    if targets == [] {
      NoCost(e);
    } else {
      RecvOneCost(e, targets[0]);
      TargetsOne(targets[0], targets[1..], LoadOf(e));
      assert [targets[0]] + targets[1..] == targets;
      if RecvOne(e, targets[0]).Ok? {
        var e1 := RecvOne(e, targets[0]).value;
        RecvAllCost(e1, targets[1..]);
        CostsThen(e, e1, RecvAll(e1, targets[1..]), LoadOf(e1), WeighTargets(targets[1..], LoadOf(e1)));
      }
    }
  }

  // Polling.

  lemma PollStartIs(e: Emitter, loop: string)
    requires e.Valid() && e.budgeted
    ensures |e.lines| + 2 > 4096 ==> PollStart(e, loop) == Err(LineBudget)
    ensures |e.lines| + 2 <= 4096 ==> PollStart(e, loop).Ok?
    ensures |e.lines| + 2 <= 4096 ==>
              var e' := PollStart(e, loop).value;
              e' == e.(lines := e'.lines, asm := e'.asm, gensym := e'.gensym) && |e'.lines| == |e.lines| + 2
  {
    hide P.Write;
  }

  lemma PollAgainIs(e: Emitter, pending: seq<Deferred>, loop: string, resp: nat)
    requires e.Valid() && e.budgeted && Accounted(e.pool, pending)
    ensures |Busy(e.pool.busy)| >= 15 ==> PollAgain(e, loop, resp) == Err(OutOfRegisters)
    ensures |Busy(e.pool.busy)| < 15 ==> Appended(e, PollAgain(e, loop, resp), 2)
  {
    hide Accounted, Alloc, Free, P.Write, Busy;
    AllocIff(e.pool);
    if Alloc(e.pool).Some? {
      AllocFree(e.pool, pending);
    }
  }

  lemma TakeBusy(e: Emitter, name: Option<string>)
    requires e.Valid()
    ensures TakeReg(e, name).Some? <==> |Busy(e.pool.busy)| < 15
    ensures TakeReg(e, name).Some? ==> |Busy(TakeReg(e, name).value.pool.busy)| == |Busy(e.pool.busy)| + 1
  {
    hide Lend, Busy;
    LendIff(e.pool, name);
  }

  /** What the poll loop does once it has started. */
  lemma PollOnceIs(e: Emitter, loop: string, bind: Option<string>)
    requires Steady(e)
    ensures var r, held := PollOnce(e, loop, bind), |Busy(e.pool.busy)|;
            && (held >= 15 ==> r == Err(OutOfRegisters))
            && (held < 15 && |e.lines| + 1 > 4096 ==> r == Err(LineBudget))
            && (held == 14 && |e.lines| + 1 <= 4096 ==> r == Err(OutOfRegisters))
            && (held < 14 && |e.lines| + 3 > 4096 ==> r == Err(LineBudget))
            && (held < 14 && |e.lines| + 3 <= 4096 ==> r.Ok?)
    ensures PollOnce(e, loop, bind).Ok? ==>
              var e' := PollOnce(e, loop, bind).value;
              && e' == e.(lines := e'.lines, asm := e'.asm, pool := e'.pool) && |e'.lines| == |e.lines| + 3
              && Accounted(e'.pool, Pending(e)) && Extends(e.pool, e'.pool)
              && |Busy(e'.pool.busy)| == |Busy(e.pool.busy)| + (if bind.Some? then 1 else 0)
  {
    hide Accounted, Extends, TakeReg, Sound, DistinctRegs, Free, Push, Busy, PollAgain;
    TakeBusy(e, bind);
    ExtendsSelf(e.pool);
    if TakeReg(e, bind).Some? {
      var resp := TakeReg(e, bind).value;
      TakeSteady(e, bind);
      var e0 := e.(pool := resp.pool);
      PushAppends(e0, GetLine(resp.reg));
      if Push(e0, GetLine(resp.reg)).Ok? {
        PollAgainIs(Push(e0, GetLine(resp.reg)).value, Pending(e), loop, resp.reg);
      }
    }
  }

  lemma WaitStateCost(e: Emitter, bind: Option<string>)
    requires Steady(e)
    ensures Costs(e, LowerWaitState(e, bind), WeighPoll(bind, LoadOf(e)))
  {
    hide Accounted, Extends, DistinctRegs, Sound, Busy, PollStart, PollOnce;
    var loop := WaitLabel(e.gensym);
    PollStartIs(e, loop);
    if PollStart(e, loop).Ok? {
      var e1 := PollStart(e, loop).value;
      StartedSteady(e, e1);
      PollOnceIs(e1, loop, bind);
      if PollOnce(e1, loop, bind).Ok? {
        var e' := PollOnce(e1, loop, bind).value;
        WaitStateSound(e, bind, e');
        PoolCost(e, e', LoadOf(e'));
      }
    }
  }

  lemma StartedSteady(e: Emitter, e1: Emitter)
    requires Steady(e) && e1 == e.(lines := e1.lines, asm := e1.asm, gensym := e1.gensym) && |e1.lines| <= 4096
    ensures Steady(e1) && Pending(e1) == Pending(e)
  {
    hide Accounted, DistinctRegs;
  }

  // Verdicts.

  /** The verdict is added to those pending, in a register taken for it. */
  lemma LatchCost(e: Emitter, code: byte)
    requires Steady(e) && e.frames != []
    ensures |Busy(e.pool.busy)| >= 15 ==> Latch(e, code) == Err(OutOfRegisters)
    ensures |Busy(e.pool.busy)| < 15 && |e.lines| + 1 > 4096 ==> Latch(e, code) == Err(LineBudget)
    ensures |Busy(e.pool.busy)| < 15 && |e.lines| + 1 <= 4096 ==>
              var at := LoadOf(e);
              Costs(e, Latch(e, code), Ok(at.(held := at.held + 1, pending := at.pending + 1, lines := at.lines + 1)))
  {
    hide Accounted, Extends, Alloc, Busy, P.Write, FailLabel, Sound;
    AllocIff(e.pool);
    if Latch(e, code).Ok? {
      var e' := Latch(e, code).value;
      LatchSound(e, code, e');
      AllocAccounted(e.pool, Pending(e));
      var t := Alloc(e.pool).value;
      FreshReg(e, t.reg);
      var d := Pending(e')[|Pending(e)|];
      assert Pending(e') == Pending(e) + [d] && d.reg == t.reg;
      AccountedMore(e'.pool, Pending(e), Pending(e'));
    }
  }

  lemma ExpectCost(e: Emitter, elseCode: Expr)
    requires Steady(e)
    ensures Costs(e, LowerExpect(e, elseCode), WeighSimple(ContextOf(e), Expect(elseCode), LoadOf(e)))
  {
    hide Steady, Moved, RecvOne, Latch, EvalByte, Busy;
    if e.frames != [] && EvalByte(elseCode, e.env).Ok? {
      var code := EvalByte(elseCode, e.env).value;
      RecvOneCost(e, Discard);
      assert [RecvTarget.Discard][1..] == [];
      if RecvOne(e, Discard).Ok? {
        var e1 := RecvOne(e, Discard).value;
        LatchCost(e1, code);
        if Latch(e1, code).Ok? {
          CostsThen(e, e1, Latch(e1, code), LoadOf(e1), Ok(LoadOf(Latch(e1, code).value)));
        }
      }
    }
  }

  lemma SteadyParts(e: Emitter)
    requires Steady(e)
    ensures e.Valid() && e.budgeted && Sound(e) && |e.frames| <= 1 && |e.lines| <= 4096 && e.expansions <= 65536
  {
  }

  lemma Failed(e: Emitter, r: Emitted)
    requires Steady(e) && r.Err?
    ensures Costs(e, r, Err(r.error))
  {
  }

  lemma SendCost(e: Emitter, b: seq<byte>)
    requires Steady(e)
    ensures Costs(e, PushBytes(e, b), Lines(LoadOf(e), |b|))
  {
    hide Steady, LoadOf, Costs, PushBytes, Appended, Lines;
    SteadyParts(e);
    PutsAppend(e, b);
    AppendedCosts(e, PushBytes(e, b), |b|);
  }

  lemma CopyCost(e: Emitter, mnemonic: Word, operands: seq<Lexeme>)
    requires Steady(e)
    ensures Costs(e, Copy(e, mnemonic, operands), Lines(LoadOf(e), 1))
  {
    hide Steady, LoadOf, Costs, Lines, P.ReadAll;
    SteadyParts(e);
    AppendedCosts(e, Copy(e, mnemonic, operands), 1);
  }

  lemma SimpleCost(e: Emitter, s: Stmt)
    requires Steady(e) && !s.Frame? && !s.CallProc? && !s.Repeat?
    ensures Costs(e, EmitSimple(e, s), WeighSimple(ContextOf(e), s, LoadOf(e)))
  {
    hide Steady, LoadOf, PushBytes, RecvAll, LowerWaitState, LowerExpect, EvalBytes, EvalSends, Push, Copy, EvalByte,
         WeighTargets, WeighPoll, Sizes, C.Crc8, Costs, Lines, Appended;
    SteadyParts(e);
    match s
    case Send(bytes, appendCrc) =>
      if EvalBytes(bytes, e.env).Ok? {
        var b := EvalBytes(bytes, e.env).value;
        SendCost(e, if appendCrc then b + [C.Crc8(b)] else b);
      } else {
        Failed(e, EmitSimple(e, s));
      }
    case CrcRegion(sends) =>
      SizesAre(sends, e.env);
      if EvalSends(sends, e.env).Ok? {
        var b := EvalSends(sends, e.env).value;
        SendCost(e, b + [C.Crc8(b)]);
      } else {
        Failed(e, EmitSimple(e, s));
      }
    case Recv(targets) => RecvAllCost(e, targets);
    case WaitState(bind) => WaitStateCost(e, bind);
    case Expect(elseCode) => ExpectCost(e, elseCode);
    case Pass => PushAppends(e, HaltLine(0)); AppendedCosts(e, Push(e, HaltLine(0)), 1);
    case Fail(code) => CopyCost(e, HALT, [code]);
    case Raw(mnemonic, operands) => CopyCost(e, mnemonic, operands);
    case Config(keywords) => CopyCost(e, SET_CONFIG, keywords);
  }

  // ----- frames -----

  lemma OpenCost(e: Emitter)
    requires Steady(e) && e.frames == []
    ensures |e.lines| + 1 > 4096 ==> OpenFrame(e) == Err(LineBudget)
    ensures |e.lines| + 1 <= 4096 ==> OpenFrame(e).Ok? && Steady(OpenFrame(e).value)
    ensures OpenFrame(e).Ok? ==>
              var e1 := OpenFrame(e).value;
              && e1 == e.(lines := e1.lines, asm := e1.asm, pool := Enter(e.pool), frames := [[]])
              && LoadOf(e1) == LoadOf(e).(lines := LoadOf(e).lines + 1)
  {
    hide Accounted, Busy, P.Write;
    EnterAccounted(e.pool, []);
    EnterSame(e.pool);
    if OpenFrame(e).Ok? {
      var e1 := OpenFrame(e).value;
      assert e1.frames == [[]];
      assert Pending(e) == [] && Pending(e1) == [];
    }
  }

  /** `n` lines more and `k` trailers more, if the lines fit, and nothing else. */
  ghost predicate Hoists(e: Emitter, r: Emitted, n: nat, k: nat) {
    && (n > 0 && |e.lines| + n > 4096 ==> r == Err(LineBudget))
    && (|e.lines| + n <= 4096 ==>
          && r.Ok? && r.value == e.(lines := r.value.lines, asm := r.value.asm, trailers := r.value.trailers)
          && |r.value.lines| == |e.lines| + n && |r.value.trailers| == |e.trailers| + k)
  }

  lemma {:induction false} VerdictsCost(e: Emitter, deferred: seq<Deferred>)
    requires e.Valid() && e.budgeted
    ensures Hoists(e, PushVerdicts(e, deferred), |deferred|, |deferred|)
    decreases |deferred|
  {
    hide Push, BnezLine;
    if deferred != [] {
      var d := deferred[0];
      PushAppends(e, BnezLine(d));
      if Push(e, BnezLine(d)).Ok? {
        var e1 := Push(e, BnezLine(d)).value;
        VerdictsCost(e1.(trailers := e1.trailers + [Trailer(d.target, d.code)]), deferred[1..]);
      }
    }
  }

  lemma CloseCost(e: Emitter)
    requires e.Valid() && e.budgeted && |e.frames| == 1 && |e.lines| <= 4096
    ensures var r, n := CloseFrame(e), |e.frames[0]|;
            && (|e.lines| + 1 + n > 4096 ==> r == Err(LineBudget))
            && (|e.lines| + 1 + n <= 4096 ==>
                  && r.Ok? && r.value == e.(lines := r.value.lines, asm := r.value.asm, trailers := r.value.trailers,
                                            pool := Exit(e.pool), frames := [])
                  && |r.value.lines| == |e.lines| + 1 + n && |r.value.trailers| == |e.trailers| + n)
  {
    hide PushVerdicts, Exit, Push;
    assert e.frames[..0] == [];
    var e0 := e.(frames := []);
    PushAppends(e0, CS_DEASSERT);
    if Push(e0, CS_DEASSERT).Ok? {
      VerdictsCost(Push(e0, CS_DEASSERT).value, e.frames[0]);
    }
  }

  /** The registers of pending verdicts, counted into those busy before they were deferred. */
  lemma {:induction false} CountNew(held: set<nat>, before: seq<Deferred>, pending: seq<Deferred>)
    requires |before| <= |pending| && pending[..|before|] == before && DistinctRegs(pending)
    requires Needed(before) <= held && forall i :: |before| <= i < |pending| ==> pending[i].reg !in held
    ensures |held + Needed(pending)| == |held| + (|pending| - |before|)
    decreases |pending|
  {
    if |pending| == |before| {
      assert pending == before && held + Needed(before) == held;
    } else {
      var last := |pending| - 1;
      var shorter := pending[..last];
      assert shorter[..|before|] == before;
      CountNew(held, before, shorter);
      NeededLast(pending);
      assert pending[last].reg !in Needed(shorter) by {
        assert forall i :: 0 <= i < last ==> shorter[i].reg != pending[last].reg;
      }
      assert held + Needed(pending) == held + Needed(shorter) + {pending[last].reg};
    }
  }

  lemma NeededLast(pending: seq<Deferred>)
    requires pending != []
    ensures Needed(pending) == Needed(pending[..|pending| - 1]) + {pending[|pending| - 1].reg}
  {
    var last := |pending| - 1;
    forall d | d in pending ensures d in pending[..last] || d == pending[last] {
      var i :| 0 <= i < |pending| && pending[i] == d;
      assert i < last ==> pending[..last][i] == d;
    }
  }

  /** Everything a frame took is free again. */
  lemma FrameEnd(e: Emitter, e1: Emitter, e2: Emitter, e': Emitter)
    requires Steady(e) && e.frames == [] && OpenFrame(e) == Ok(e1) && Steady(e2) && Moved(e1, e2) && |e2.frames| == 1
    requires CloseFrame(e2) == Ok(e')
    ensures Steady(e') && Moved(e, e')
    ensures var at, end := LoadOf(e), LoadOf(e2);
            LoadOf(e') == Load(at.held, at.pending, end.lines + 1 + end.pending, end.trailers + end.pending,
                               end.expansions)
  {
    hide OpenFrame, CloseFrame, Accounted, Extends, Busy, Exit, Enter;
    OpenCost(e);
    CloseCost(e2);
    CloseSound(e2, e');
    EnterSame(e.pool);
    PendingBusy(e2);
    assert Pending(e) == [] && Pending(e1) == [] && Pending(e') == [];
    assert forall d :: d in Pending(e2) ==> !e.pool.busy[d.reg];
    FrameExit(e.pool, e2.pool, Pending(e2));
    SamePools(e.pool, e'.pool);
  }

  // ----- expansions -----

  lemma EnterCost(e: Emitter)
    requires Steady(e)
    ensures e.expansions + 1 > 65536 ==> EnterExpansion(e) == Err(ExpansionBudget)
    ensures e.expansions + 1 <= 65536 ==>
              var e1 := e.(expansions := e.expansions + 1, pool := Enter(e.pool));
              EnterExpansion(e) == Ok(e1) && Steady(e1) && LoadOf(e1) == LoadOf(e).(expansions := e.expansions + 1)
  {
    hide Accounted, Busy;
    EnterAccounted(e.pool, Pending(e));
    EnterSame(e.pool);
  }

  lemma ExpansionEnd(e: Emitter, e1: Emitter, e2: Emitter, e': Emitter)
    requires Steady(e) && e1.Valid() && e1.pool == Enter(e.pool) && e1.frames == e.frames
    requires Steady(e2) && Moved(e1, e2) && |e2.frames| == |e.frames| && e' == ExitExpansion(e2)
    ensures Steady(e') && Moved(e, e') && |Pending(e2)| >= |Pending(e)|
    ensures LoadOf(e') == Left(LoadOf(e), LoadOf(e2))
  {
    hide Accounted, Extends, Exit, ReserveAll, Enter, Busy;
    var before, pending := Pending(e), Pending(e2);
    EnterSame(e.pool);
    PendingBusy(e);
    PendingBusy(e2);
    ExitSound(e2);
    DefersMembers(e.pool.busy, before, pending);
    ExpansionExit(e.pool, e2.pool, before, pending);
    ExitValid(e2.pool);
    ReserveNothing(Exit(e2.pool));
    var q := ReserveAll(Exit(e2.pool), pending);
    ReservedAccounted(e.pool, before, q, pending);
    assert e'.pool == q;
    HeldAfter(e.pool.busy, q.busy, before, pending);
  }

  lemma HeldAfter(busy: seq<bool>, busy': seq<bool>, before: seq<Deferred>, pending: seq<Deferred>)
    requires |busy| == |busy'| == 16 && Defers(busy, before, pending) && DistinctRegs(pending)
    requires forall n :: 0 <= n < 16 ==> (busy'[n] <==> busy[n] || n in Needed(pending))
    requires forall d :: d in pending ==> 1 <= d.reg < 16
    requires forall d :: d in before ==> busy[d.reg]
    ensures |Busy(busy')| == |Busy(busy)| + (|pending| - |before|)
  {
    hide UpTo;
    assert Busy(busy') == Busy(busy) + Needed(pending);
    CountNew(Busy(busy), before, pending);
  }

  // ----- every statement -----

  lemma SameContextOf(e: Emitter, e': Emitter)
    requires SameContext(e, e')
    ensures ContextOf(e') == ContextOf(e) && IdleProcs(e') == IdleProcs(e) && |e'.frames| == |e.frames|
  {
  }

  /**
   * A statement is lowered exactly when it can be weighed, and then costs what is weighed: the
   * registers held after it, the verdicts pending, the lines and trailers emitted, the expansions
   * made. Otherwise the error is the first that weighing meets.
   */
  lemma {:induction false} StmtCosts(e: Emitter, s: Stmt)
    requires Steady(e)
    ensures Costs(e, EmitStmt(e, s), WeighStmt(ContextOf(e), s, LoadOf(e)))
    decreases IdleProcs(e), s, 0
  {
    hide Steady, LoadOf, Costs, EmitSimple, OpenFrame, CloseFrame, EvalInt, EmitBody, EmitRepeat, EmitCall,
         LegalInFrame, InFrame, WeighSimple, WeighCall, WeighRepeat, WeighBody;
    SteadyParts(e);
    SameInFrame(s);
    if e.frames != [] && !LegalInFrame(s) {
      Failed(e, EmitStmt(e, s));
    } else {
      match s
      case Frame(body) => FrameCosts(e, body);
      case CallProc(name, args) => CallCosts(e, name, args);
      case Repeat(count, body) =>
        if EvalInt(count, e.env).Ok? && 0 <= EvalInt(count, e.env).value <= 1024 {
          RepeatCosts(e, EvalInt(count, e.env).value, body);
        } else {
          Failed(e, EmitStmt(e, s));
        }
      case _ => SimpleCost(e, s);
    }
  }

  lemma {:induction false} BodyCosts(e: Emitter, body: seq<Stmt>)
    requires Steady(e)
    ensures Costs(e, EmitBody(e, body), WeighBody(ContextOf(e), body, LoadOf(e)))
    decreases IdleProcs(e), body, 0
  {
    hide Steady, LoadOf, EmitStmt, WeighStmt, Moved;
    if body == [] {
      NoCost(e);
    } else {
      StmtCosts(e, body[0]);
      if EmitStmt(e, body[0]).Ok? {
        var e1 := EmitStmt(e, body[0]).value;
        SameContextOf(e, e1);
        BodyCosts(e1, body[1..]);
        CostsThen(e, e1, EmitBody(e1, body[1..]), LoadOf(e1), WeighBody(ContextOf(e), body[1..], LoadOf(e1)));
      }
    }
  }

  lemma {:induction false} FrameCosts(e: Emitter, body: seq<Stmt>)
    requires Steady(e)
    ensures Costs(e, EmitStmt(e, Frame(body)), WeighStmt(ContextOf(e), Frame(body), LoadOf(e)))
    decreases IdleProcs(e), body, 1
  {
    hide Steady, LoadOf, Moved, EmitBody, WeighBody, OpenFrame, CloseFrame;
    if e.frames != [] { return; }
    LoadIs(e);
    OpenCost(e);
    if OpenFrame(e).Err? { return; }
    var e1 := OpenFrame(e).value;
    assert IdleProcs(e1) == IdleProcs(e);
    BodyCosts(e1, body);
    if EmitBody(e1, body).Ok? {
      var e2 := EmitBody(e1, body).value;
      SteadyParts(e2);
      LoadIs(e2);
      CloseCost(e2);
      if CloseFrame(e2).Ok? {
        FrameEnd(e, e1, e2, CloseFrame(e2).value);
      }
    }
  }

  lemma LoadIs(e: Emitter)
    ensures LoadOf(e).lines == |e.lines| && LoadOf(e).expansions == e.expansions && LoadOf(e).pending == |Pending(e)|
  {
  }

  lemma {:induction false} CallCosts(e: Emitter, name: string, args: seq<Arg>)
    requires Steady(e)
    ensures Costs(e, EmitCall(e, name, args), WeighCall(ContextOf(e), name, args, LoadOf(e)))
    decreases IdleProcs(e), args, 0
  {
    hide Steady, LoadOf, Moved, EmitBody, WeighBody, BindArgs, EnterExpansion, ExitExpansion, Enter;
    if name !in e.env.fns && name in e.procs && name !in e.active
       && BindArgs(name, e.procs[name].params, args, e.env).Ok? {
      var p := e.procs[name];
      var bindings := BindArgs(name, p.params, args, e.env).value;
      LoadIs(e);
      EnterCost(e);
      if EnterExpansion(e).Err? { return; }
      var e1 := EnterExpansion(e).value;
      var e2 := Inlined(e1, name, bindings);
      assert name in IdleProcs(e) && name !in IdleProcs(e2) && IdleProcs(e2) < IdleProcs(e);
      Elsewhere(e1, e2);
      BodyCosts(e2, p.body);
      if EmitBody(e2, p.body).Ok? {
        var e3 := EmitBody(e2, p.body).value;
        var e4 := e3.(env := e.env, active := e.active);
        Elsewhere(e3, e4);
        MovedElsewhere(e1, e2, e3, e4);
        ExpansionEnd(e, e1, e4, ExitExpansion(e4));
      }
    }
  }

  /** The environment and the call chain weigh nothing. */
  lemma Elsewhere(e: Emitter, e': Emitter)
    requires Steady(e) && e' == e.(env := e'.env, active := e'.active)
    ensures Steady(e') && LoadOf(e') == LoadOf(e)
  {
    hide Accounted, DistinctRegs, Busy;
  }

  lemma MovedElsewhere(e1: Emitter, e2: Emitter, e3: Emitter, e4: Emitter)
    requires e1.Valid() && e2 == e1.(env := e2.env, active := e2.active)
    requires e4 == e3.(env := e4.env, active := e4.active)
    requires Moved(e2, e3)
    ensures Moved(e1, e4)
  {
    hide Extends, Defers;
  }

  lemma {:induction false} RepeatCosts(e: Emitter, n: nat, body: seq<Stmt>)
    requires Steady(e)
    ensures Costs(e, EmitRepeat(e, n, body), WeighRepeat(ContextOf(e), n, body, LoadOf(e)))
    decreases IdleProcs(e), body, 1, n
  {
    hide Steady, LoadOf, Moved, EmitBody, WeighBody, EnterExpansion, ExitExpansion, Enter;
    if n == 0 {
      NoCost(e);
    } else {
      LoadIs(e);
      EnterCost(e);
      if EnterExpansion(e).Err? { return; }
      var e1 := EnterExpansion(e).value;
      assert IdleProcs(e1) == IdleProcs(e);
      BodyCosts(e1, body);
      if EmitBody(e1, body).Ok? {
        var e2 := EmitBody(e1, body).value;
        var e3 := ExitExpansion(e2);
        ExpansionEnd(e, e1, e2, e3);
        assert IdleProcs(e3) == IdleProcs(e);
        RepeatCosts(e3, n - 1, body);
        CostsThen(e, e3, EmitRepeat(e3, n - 1, body), LoadOf(e3), WeighRepeat(ContextOf(e), n - 1, body, LoadOf(e3)));
      }
    }
  }
}
