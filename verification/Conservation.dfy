/** Register conservation: what a statement may write, what it keeps, and what it gives back. */
module Conservation {
  import opened Prelude
  import opened Text
  import opened Isa
  import opened Machine
  import opened Asm
  import opened Encoder
  import opened EmittedLines
  import opened Ast
  import opened ConstEval
  import opened Registers
  import opened Emit
  import opened Verdicts
  import opened Ownership
  import opened Correct
  import Lexer
  import P = Printer
  import C = Crc8

  // ----- what a line writes and where it jumps -----

  predicate Writes(line: Line, r: nat) {
    line.Op? &&
    match Resolve(line.mnemonic, line.operands, map[])
    case Ok(Plain(i)) => InstrWrites(i, r)
    case Ok(LoadConst(rd, _)) => rd % 16 == r
    case _ => false
  }

  /** An instruction changes no register but those it writes, and never x0. */
  lemma WritesExact(i: Straight, r: nat, regs: Regs, dev: Device)
    requires r < 16 && (r == 0 || !InstrWrites(i, r))
    ensures Exec(i, regs, dev).regs[r] == regs[r]
  {
    hide DataValue, C.Update, Pow2;
  }

  function TargetOf(line: Line): Option<string> {
    if !line.Op? then None else
    match Resolve(line.mnemonic, line.operands, map[])
    case Ok(Jump(_, _, _, target)) => Some(target)
    case _ => None
  }

  /** The register a verdict branch looks at. */
  function Judges(line: Line): Option<nat> {
    if !line.Op? then None else
    match Resolve(line.mnemonic, line.operands, map[])
    case Ok(Jump(NotEqual, a, _, _)) => Some(a)
    case _ => None
  }

  lemma JudgesTarget(line: Line)
    requires TargetOf(line) == None
    ensures Judges(line) == None
  {
    hide Resolve;
  }

  /** No branch, and no register of `kept` written. */
  predicate Harmless(line: Line, kept: set<nat>) { TargetOf(line) == None && forall r :: r in kept ==> !Writes(line, r) }

  lemma HarmlessLines(b: byte, code: byte, kept: set<nat>)
    ensures Harmless(PutLine(b), kept) && Harmless(HaltLine(code), kept)
    ensures Harmless(CS_ASSERT, kept) && Harmless(CS_DEASSERT, kept) && Harmless(CRC_RESET, kept)
  {
    hide Resolve;
    PutResolves(b);
    HaltResolves(code);
    PinsResolve();
  }

  lemma CopyHarmless(mnemonic: Word, operands: seq<Lexeme>, kept: set<nat>)
    requires RawKeeps(mnemonic, P.ReadAll(operands), kept)
    ensures Harmless(CopiedLine(mnemonic, operands), kept)
  {
    hide Resolve, P.ReadAll;
  }

  lemma FailHarmless(code: Numeral, kept: set<nat>)
    ensures Harmless(CopiedLine(HALT, [code]), kept)
  {
    hide Resolve, Lexer.ReadOperand;
    FailReads(code);
    match Lexer.ReadOperand(code)
    case Num(n) => HaltResolves(n);
    case Ident(name) => HaltNeedsNumber(name);
  }

  lemma GetLineWrites(reg: nat)
    requires 1 <= reg < 16
    ensures TargetOf(GetLine(reg)) == None
    ensures forall r: nat :: Writes(GetLine(reg), r) <==> r == reg
  {
    hide Resolve;
    GetResolves(reg);
  }

  function RdsrLine(reg: nat): Line { Op("rdsr", [Emit.Reg(reg), Ident("crc")]) }

  lemma RdsrLineWrites(reg: nat)
    requires 1 <= reg < 16
    ensures TargetOf(RdsrLine(reg)) == None
    ensures forall r: nat :: Writes(RdsrLine(reg), r) <==> r == reg
  {
    hide Resolve;
    RdsrResolves(reg);
  }

  lemma PollLinesWrite(resp: nat, k: nat, loop: string)
    requires 1 <= resp < 16 && 1 <= k < 16
    ensures var li := Op("li", [Emit.Reg(k), Num(WAIT_STATE_CODE)]);
            TargetOf(li) == None && forall r: nat :: Writes(li, r) <==> r == k
    ensures var beq := Op("beq", [Emit.Reg(resp), Emit.Reg(k), Ident(loop)]);
            TargetOf(beq) == Some(loop) && Judges(beq) == None && forall r: nat :: !Writes(beq, r)
  {
    hide Resolve;
    LiResolves(k, WAIT_STATE_CODE);
    BeqResolves(resp, k, loop);
  }

  lemma BnezLineWrites(d: Deferred)
    requires 1 <= d.reg < 16
    ensures TargetOf(BnezLine(d)) == Some(d.target) && Judges(BnezLine(d)) == Some(d.reg)
    ensures forall r: nat :: !Writes(BnezLine(d), r)
  {
    hide Resolve;
    BnezResolves(d.reg, d.target);
  }

  // ----- the invariant and the relation -----

  /** Line `i` latched a residue in `reg`, and nothing writes that register before line `end`. */
  ghost predicate LatchedFor(lines: seq<Line>, reg: nat, i: nat, end: nat) {
    i < end <= |lines| && lines[i] == RdsrLine(reg) && forall k :: i < k < end ==> !Writes(lines[k], reg)
  }

  ghost predicate LatchedBefore(lines: seq<Line>, reg: nat, end: nat) { exists i :: LatchedFor(lines, reg, i, end) }

  /** The registers of pending verdicts, as far as they are in `kept`, still hold their residues. */
  ghost predicate Latched(lines: seq<Line>, pending: seq<Deferred>, kept: set<nat>) {
    forall d :: d in pending && d.reg in kept ==> LatchedBefore(lines, d.reg, |lines|)
  }

  ghost predicate JudgedAt(lines: seq<Line>, k: nat, kept: set<nat>)
    requires k < |lines|
  {
    match Judges(lines[k])
    case None => true
    case Some(r) => r in kept ==> LatchedBefore(lines, r, k)
  }

  /** Every verdict branch looks at a residue nothing has overwritten. */
  ghost predicate Judged(lines: seq<Line>, kept: set<nat>) {
    forall k :: 0 <= k < |lines| ==> JudgedAt(lines, k, kept)
  }

  /** Label `name` is defined in front of an instruction. */
  ghost predicate LandsAt(lines: seq<Line>, name: string, k: nat) {
    k + 1 < |lines| && lines[k] == Label(name) && lines[k + 1].Op?
  }

  ghost predicate Lands(lines: seq<Line>, name: string) { exists k :: LandsAt(lines, name, k) }

  ghost predicate Hoisted(trailers: seq<Trailer>, name: string) {
    exists i :: 0 <= i < |trailers| && trailers[i].target == name
  }

  ghost predicate Aimed(lines: seq<Line>, trailers: seq<Trailer>, line: Line) {
    match TargetOf(line)
    case None => true
    case Some(name) => Lands(lines, name) || Hoisted(trailers, name)
  }

  /** Every branch emitted so far goes to a label that is there, or that a trailer will define. */
  ghost predicate Targeted(lines: seq<Line>, trailers: seq<Trailer>) {
    forall i :: 0 <= i < |lines| ==> Aimed(lines, trailers, lines[i])
  }

  ghost predicate DistinctRegs(pending: seq<Deferred>) {
    forall i, j :: 0 <= i < j < |pending| ==> pending[i].reg != pending[j].reg
  }

  /** What holds between any two statements, if raw statements write no register of `kept`. */
  ghost predicate Tracked(e: Emitter, kept: set<nat>): (b: bool)
    ensures b ==> Sound(e) && e.Valid()
  {
    && Sound(e)
    && Accounted(e.pool, Pending(e)) && Named(e.pool)
    && DistinctRegs(Pending(e))
    && Latched(e.lines, Pending(e), kept)
    && Judged(e.lines, kept)
    && Targeted(e.lines, e.trailers)
  }

  /** The lines from `from` on write no register of `kept` that is busy in `busy`. */
  ghost predicate Spares(lines: seq<Line>, from: nat, busy: seq<bool>, kept: set<nat>) {
    forall k, r :: from <= k < |lines| && r in kept && r < |busy| && busy[r] ==> !Writes(lines[k], r)
  }

  /** New verdicts follow the old ones, in registers that were free. */
  ghost predicate Defers(busy: seq<bool>, before: seq<Deferred>, after: seq<Deferred>) {
    && Prefix(before, after)
    && forall i :: |before| <= i < |after| ==> after[i].reg < |busy| && !busy[after[i].reg]
  }

  /** What any statement, at any depth, does to the emitter. */
  ghost predicate Step(e: Emitter, e': Emitter, kept: set<nat>) {
    && Extends(e.pool, e'.pool)
    && Defers(e.pool.busy, Pending(e), Pending(e'))
    && Prefix(e.lines, e'.lines)
    && Spares(e'.lines, |e.lines|, e.pool.busy, kept)
  }

  lemma StepSelf(e: Emitter, kept: set<nat>)
    requires e.Valid()
    ensures Step(e, e, kept)
  {
  }

  lemma SparesTrans(a: seq<Line>, b: seq<Line>, c: seq<Line>, busy: seq<bool>, busy': seq<bool>,
                    kept: set<nat>)
    requires Prefix(a, b) && Prefix(b, c) && |busy| == |busy'|
    requires Spares(b, |a|, busy, kept) && Spares(c, |b|, busy', kept)
    requires forall r :: 0 <= r < |busy| && busy[r] ==> busy'[r]
    ensures Spares(c, |a|, busy, kept) && Prefix(a, c)
  {
    hide Writes;
    assert a == b[..|a|] == c[..|b|][..|a|] == c[..|a|];
    forall k | |a| <= k < |b| ensures c[k] == b[k] {
      assert c[..|b|][k] == c[k];
    }
  }

  lemma DefersTrans(busy: seq<bool>, busy': seq<bool>, a: seq<Deferred>, b: seq<Deferred>, c: seq<Deferred>)
    requires Defers(busy, a, b) && Defers(busy', b, c) && |busy| == |busy'|
    requires forall r :: 0 <= r < |busy| && busy[r] ==> busy'[r]
    ensures Defers(busy, a, c)
  {
    assert a == b[..|a|] == c[..|b|][..|a|] == c[..|a|];
    forall i | |a| <= i < |b| ensures c[i] == b[i] {
      assert c[..|b|][i] == c[i];
    }
  }

  lemma StepTrans(e: Emitter, e1: Emitter, e2: Emitter, kept: set<nat>)
    requires Tracked(e, kept) && Tracked(e1, kept) && Step(e, e1, kept) && Step(e1, e2, kept)
    ensures Step(e, e2, kept)
  {
    hide Extends, Accounted, Named, Defers, Spares, Sound, Latched, Targeted, Judged;
    ExtendsTrans(e.pool, e1.pool, e2.pool);
    forall r | 0 <= r < 16 && e.pool.busy[r] ensures e1.pool.busy[r] {
      ExtendsBusy(e.pool, e1.pool, Pending(e), Pending(e1), r);
    }
    SparesTrans(e.lines, e1.lines, e2.lines, e.pool.busy, e1.pool.busy, kept);
    DefersTrans(e.pool.busy, e1.pool.busy, Pending(e), Pending(e1), Pending(e2));
  }

  // ----- lines appended to a program -----

  lemma LatchedForGrows(lines: seq<Line>, more: seq<Line>, reg: nat, end: nat)
    requires LatchedBefore(lines, reg, end)
    ensures LatchedBefore(lines + more, reg, end)
  {
    hide Writes, RdsrLine;
    var i :| LatchedFor(lines, reg, i, end);
    assert LatchedFor(lines + more, reg, i, end);
  }

  /** Lines that spare `reg` leave what was latched in it. */
  lemma LatchedOn(lines: seq<Line>, reg: nat, end: nat, later: nat)
    requires LatchedBefore(lines, reg, end) && end <= later <= |lines|
    requires forall k :: end <= k < later ==> !Writes(lines[k], reg)
    ensures LatchedBefore(lines, reg, later)
  {
    hide Writes, RdsrLine;
    var i :| LatchedFor(lines, reg, i, end);
    assert LatchedFor(lines, reg, i, later);
  }

  lemma LatchedGrows(lines: seq<Line>, more: seq<Line>, pending: seq<Deferred>, busy: seq<bool>, kept: set<nat>)
    requires Latched(lines, pending, kept) && Spares(lines + more, |lines|, busy, kept)
    requires forall d :: d in pending ==> 1 <= d.reg < 16 && d.reg < |busy| && busy[d.reg]
    ensures Latched(lines + more, pending, kept)
  {
    hide Writes, RdsrLine, LatchedBefore;
    forall d | d in pending && d.reg in kept ensures LatchedBefore(lines + more, d.reg, |lines + more|) {
      LatchedForGrows(lines, more, d.reg, |lines|);
      LatchedOn(lines + more, d.reg, |lines|, |lines + more|);
    }
  }

  lemma JudgedGrows(lines: seq<Line>, more: seq<Line>, kept: set<nat>)
    requires Judged(lines, kept)
    requires forall k :: |lines| <= k < |lines + more| ==> JudgedAt(lines + more, k, kept)
    ensures Judged(lines + more, kept)
  {
    hide Judges, LatchedBefore;
    forall k | 0 <= k < |lines + more| ensures JudgedAt(lines + more, k, kept) {
      if k < |lines| {
        assert JudgedAt(lines, k, kept) && (lines + more)[k] == lines[k];
        if Judges(lines[k]).Some? && Judges(lines[k]).value in kept {
          LatchedForGrows(lines, more, Judges(lines[k]).value, k);
        }
      }
    }
  }

  predicate Unjudging(block: seq<Line>) { forall k :: 0 <= k < |block| ==> Judges(block[k]) == None }

  lemma UnjudgedGrows(lines: seq<Line>, block: seq<Line>, kept: set<nat>)
    requires Judged(lines, kept) && Unjudging(block)
    ensures Judged(lines + block, kept)
  {
    hide Judges, LatchedBefore;
    forall k | |lines| <= k < |lines + block| ensures JudgedAt(lines + block, k, kept) {
      assert (lines + block)[k] == block[k - |lines|];
    }
    JudgedGrows(lines, block, kept);
  }

  lemma LandsGrows(lines: seq<Line>, more: seq<Line>, name: string)
    requires Lands(lines, name)
    ensures Lands(lines + more, name)
  {
    var k :| LandsAt(lines, name, k);
    assert LandsAt(lines + more, name, k);
  }

  lemma AimedGrows(lines: seq<Line>, more: seq<Line>, trailers: seq<Trailer>, extra: seq<Trailer>, line: Line)
    requires Aimed(lines, trailers, line)
    ensures Aimed(lines + more, trailers + extra, line)
  {
    hide TargetOf, Lands;
    match TargetOf(line)
    case None =>
    case Some(name) =>
      if Lands(lines, name) {
        LandsGrows(lines, more, name);
      } else {
        HoistedGrows(trailers, extra, name);
      }
  }

  lemma HoistedGrows(trailers: seq<Trailer>, extra: seq<Trailer>, name: string)
    requires Hoisted(trailers, name)
    ensures Hoisted(trailers + extra, name)
  {
    var i :| 0 <= i < |trailers| && trailers[i].target == name;
    assert (trailers + extra)[i].target == name;
  }

  lemma TargetedGrows(lines: seq<Line>, more: seq<Line>, trailers: seq<Trailer>, extra: seq<Trailer>)
    requires Targeted(lines, trailers)
    requires forall k :: 0 <= k < |more| ==> Aimed(lines + more, trailers + extra, more[k])
    ensures Targeted(lines + more, trailers + extra)
  {
    hide Aimed;
    forall i | 0 <= i < |lines + more| ensures Aimed(lines + more, trailers + extra, (lines + more)[i]) {
      if i < |lines| {
        AimedGrows(lines, more, trailers, extra, lines[i]);
      } else {
        assert (lines + more)[i] == more[i - |lines|];
      }
    }
  }

  /** `block` writes no busy register of `kept`, and its branches land. */
  ghost predicate Clean(lines: seq<Line>, block: seq<Line>, trailers: seq<Trailer>, busy: seq<bool>, kept: set<nat>) {
    && (forall k, r :: 0 <= k < |block| && r in kept && r < |busy| && busy[r] ==> !Writes(block[k], r))
    && (forall k :: 0 <= k < |block| ==> Aimed(lines + block, trailers, block[k]))
  }

  lemma HarmlessClean(lines: seq<Line>, line: Line, trailers: seq<Trailer>, busy: seq<bool>, kept: set<nat>)
    requires Harmless(line, kept)
    ensures Clean(lines, [line], trailers, busy, kept) && Unjudging([line])
  {
    JudgesTarget(line);
    hide TargetOf, Writes, Judges;
  }

  lemma CleanSpares(lines: seq<Line>, block: seq<Line>, trailers: seq<Trailer>, busy: seq<bool>, kept: set<nat>)
    requires Clean(lines, block, trailers, busy, kept)
    ensures Spares(lines + block, |lines|, busy, kept)
  {
    hide Writes, Aimed;
    forall k | |lines| <= k < |lines + block| ensures (lines + block)[k] == block[k - |lines|] {
    }
  }

  /** Appending clean lines while no verdict is added. */
  lemma BlockStep(e: Emitter, block: seq<Line>, e': Emitter, kept: set<nat>)
    requires Tracked(e, kept) && Sound(e') && e'.lines == e.lines + block && e'.trailers == e.trailers
    requires Extends(e.pool, e'.pool) && Accounted(e'.pool, Pending(e)) && Named(e'.pool) && Pending(e') == Pending(e)
    requires Clean(e.lines, block, e.trailers, e.pool.busy, kept) && Unjudging(block)
    ensures Tracked(e', kept) && Step(e, e', kept)
  {
    hide Extends, Accounted, Named, Spares, Latched, Targeted, DistinctRegs, Judged, Unjudging;
    CleanSpares(e.lines, block, e.trailers, e.pool.busy, kept);
    LatchedGrows(e.lines, block, Pending(e), e.pool.busy, kept);
    UnjudgedGrows(e.lines, block, kept);
    assert e.trailers + [] == e.trailers;
    assert forall k :: 0 <= k < |block| ==> Aimed(e.lines + block, e.trailers, block[k]) by { hide Writes, Aimed; }
    TargetedGrows(e.lines, block, e.trailers, []);
  }

  lemma ExtendsSelf(p: Pool)
    requires p.scopes != []
    ensures Extends(p, p)
  {
  }

  /** One line, made or copied. */
  lemma LineTracked(e: Emitter, line: Line, e': Emitter, kept: set<nat>)
    requires Tracked(e, kept) && Harmless(line, kept) && e' == e.(lines := e.lines + [line], asm := e'.asm)
    ensures Tracked(e', kept) && Step(e, e', kept)
  {
    hide Extends, Accounted, Named, Step, Tracked, Clean, Unjudging;
    TrackedParts(e, kept);
    ExtendsSelf(e.pool);
    HarmlessClean(e.lines, line, e.trailers, e.pool.busy, kept);
    BlockStep(e, [line], e', kept);
  }

  lemma TrackedParts(e: Emitter, kept: set<nat>)
    requires Tracked(e, kept)
    ensures Accounted(e.pool, Pending(e)) && Named(e.pool) && e.pool.scopes != []
  {
  }

  lemma {:induction false} PutTracked(e: Emitter, bytes: seq<byte>, e': Emitter, kept: set<nat>)
    requires Tracked(e, kept) && PushBytes(e, bytes) == Ok(e')
    ensures Tracked(e', kept) && Step(e, e', kept)
    decreases |bytes|
  {
    hide Tracked, Step, Harmless, P.Write;
    StepSelf(e, kept);
    if bytes != [] {
      var e1 := Push(e, PutLine(bytes[0])).value;
      HarmlessLines(bytes[0], 0, kept);
      LineTracked(e, PutLine(bytes[0]), e1, kept);
      PutTracked(e1, bytes[1..], e', kept);
      StepTrans(e, e1, e', kept);
    }
  }

  // ----- receiving -----

  lemma TakeAccounted(e: Emitter, name: Option<string>, kept: set<nat>)
    requires Tracked(e, kept) && TakeReg(e, name).Some?
    ensures var p := TakeReg(e, name).value.pool; Accounted(p, Pending(e)) && Named(p) && Extends(e.pool, p)
    ensures name.None? ==> Free(TakeReg(e, name).value.pool, TakeReg(e, name).value.reg) == e.pool
  {
    hide Accounted, Named, Extends, Alloc, BindName, Latched, Targeted, Judged;
    match name
    case None =>
      AllocAccounted(e.pool, Pending(e));
      AllocFree(e.pool, Pending(e));
      AllocNamed(e.pool);
    case Some(n) => BindAccounted(e.pool, Pending(e), n); BindNamed(e.pool, n);
  }

  lemma GetClean(e: Emitter, reg: nat, kept: set<nat>)
    requires e.Valid() && 1 <= reg < 16 && !e.pool.busy[reg]
    ensures Clean(e.lines, [GetLine(reg)], e.trailers, e.pool.busy, kept) && Unjudging([GetLine(reg)])
  {
    hide Writes, TargetOf, Judges;
    GetLineWrites(reg);
    JudgesTarget(GetLine(reg));
  }

  lemma RecvOneTracked(e: Emitter, target: RecvTarget, e': Emitter, kept: set<nat>)
    requires Tracked(e, kept) && RecvOne(e, target) == Ok(e')
    ensures Tracked(e', kept) && Step(e, e', kept)
  {
    hide Tracked, Step, Extends, Accounted, Named, TakeReg, Sound, Clean, Free, Unjudging, P.Write, GetLine;
    TrackedParts(e, kept);
    var t := TakeReg(e, NameOf(target)).value;
    TakeAccounted(e, NameOf(target), kept);
    ExtendsSelf(e.pool);
    GetClean(e, t.reg, kept);
    RecvOneSound(e, target, e');
    BlockStep(e, [GetLine(t.reg)], e', kept);
  }

  lemma {:induction false} RecvAllTracked(e: Emitter, targets: seq<RecvTarget>, e': Emitter, kept: set<nat>)
    requires Tracked(e, kept) && RecvAll(e, targets) == Ok(e')
    ensures Tracked(e', kept) && Step(e, e', kept)
    decreases |targets|
  {
    hide Tracked, Step, RecvOne;
    StepSelf(e, kept);
    if targets != [] {
      var e1 := RecvOne(e, targets[0]).value;
      RecvOneTracked(e, targets[0], e1, kept);
      RecvAllTracked(e1, targets[1..], e', kept);
      StepTrans(e, e1, e', kept);
    }
  }

  lemma PollAgainExact(e: Emitter, pending: seq<Deferred>, loop: string, resp: nat, e': Emitter)
    requires e.Valid() && Accounted(e.pool, pending) && PollAgain(e, loop, resp) == Ok(e')
    ensures e'.pool == e.pool && e'.frames == e.frames && e'.trailers == e.trailers
  {
    hide Accounted, Alloc, Free;
    AllocFree(e.pool, pending);
  }

  /** The poll loop gives back its scratch register, and the response register unless it is named. */
  lemma WaitStatePool(e: Emitter, bind: Option<string>, e': Emitter, kept: set<nat>)
    requires Tracked(e, kept) && LowerWaitState(e, bind) == Ok(e')
    ensures Accounted(e'.pool, Pending(e)) && Named(e'.pool) && Extends(e.pool, e'.pool)
    ensures Pending(e') == Pending(e) && e'.trailers == e.trailers
  {
    hide Accounted, Named, Extends, TakeReg, PollAgain, Sound, Latched, Targeted, DistinctRegs, Free, Judged, P.Write;
    var loop := WaitLabel(e.gensym);
    var e1 := PollStart(e, loop).value;
    var resp := TakeReg(e1, bind).value;
    assert TakeReg(e1, bind) == TakeReg(e, bind) by { SameTake(e, e1, bind); }
    TakeAccounted(e, bind, kept);
    ExtendsSelf(e.pool);
    var e2 := Push(e1.(pool := resp.pool), GetLine(resp.reg)).value;
    PollAgainExact(e2, Pending(e), loop, resp.reg, PollAgain(e2, loop, resp.reg).value);
  }

  lemma SameTake(e: Emitter, e1: Emitter, name: Option<string>)
    requires e.Valid() && e1.Valid() && e1.pool == e.pool
    ensures TakeReg(e1, name) == TakeReg(e, name)
  {
  }

  lemma PollClean(e: Emitter, block: seq<Line>, loop: string, resp: nat, k: nat, kept: set<nat>)
    requires e.Valid() && 1 <= resp < 16 && 1 <= k < 16 && !e.pool.busy[resp] && !e.pool.busy[k]
    requires block == [Label(loop), CRC_RESET, GetLine(resp), Op("li", [Emit.Reg(k), Num(WAIT_STATE_CODE)]),
                       Op("beq", [Emit.Reg(resp), Emit.Reg(k), Ident(loop)])]
    ensures Clean(e.lines, block, e.trailers, e.pool.busy, kept) && Unjudging(block)
  {
    hide Resolve;
    PollLinesWrite(resp, k, loop);
    GetLineWrites(resp);
    HarmlessLines(0, 0, kept);
    hide TargetOf, Writes, Judges;
    JudgesTarget(GetLine(resp));
    JudgesTarget(CRC_RESET);
    JudgesTarget(Op("li", [Emit.Reg(k), Num(WAIT_STATE_CODE)]));
    var lines := e.lines + block;
    assert lines[|e.lines|] == Label(loop) && lines[|e.lines| + 1] == CRC_RESET;
    assert LandsAt(lines, loop, |e.lines|);
    LabelHarmless(loop, kept);
    assert forall k :: 0 <= k < 5 ==> block[k] in block;
  }

  lemma LabelHarmless(name: string, kept: set<nat>)
    ensures Harmless(Label(name), kept) && Judges(Label(name)) == None
  {
  }

  lemma WaitStateTracked(e: Emitter, bind: Option<string>, e': Emitter, kept: set<nat>)
    requires Tracked(e, kept) && LowerWaitState(e, bind) == Ok(e')
    ensures Tracked(e', kept) && Step(e, e', kept)
  {
    hide LowerWaitState, Clean, Step, Accounted, Named, Extends, Latched, Targeted, DistinctRegs, Sound, Judged,
         Unjudging;
    WaitStateSound(e, bind, e');
    WaitStatePool(e, bind, e', kept);
    var loop, resp, k := WaitStateLines(e, bind, e');
    var block := [Label(loop), CRC_RESET, GetLine(resp), Op("li", [Emit.Reg(k), Num(WAIT_STATE_CODE)]),
                  Op("beq", [Emit.Reg(resp), Emit.Reg(k), Ident(loop)])];
    PollClean(e, block, loop, resp, k, kept);
    BlockStep(e, block, e', kept);
  }

  // ----- verdicts -----

  lemma ExpectPool(e: Emitter, elseCode: Expr, e': Emitter, d: Deferred, kept: set<nat>)
    requires Tracked(e, kept) && LowerExpect(e, elseCode) == Ok(e') && Pending(e') == Pending(e) + [d]
    ensures Accounted(e'.pool, Pending(e)) && Named(e'.pool) && Extends(e.pool, e'.pool)
  {
    hide Accounted, Named, Extends, Alloc, Free, EvalByte, Sound, Latched, Targeted, DistinctRegs, Judged;
    TrackedParts(e, kept);
    AllocFree(e.pool, Pending(e));
    AllocAccounted(e.pool, Pending(e));
    AllocNamed(e.pool);
  }

  lemma AccountedMore(p: Pool, pending: seq<Deferred>, more: seq<Deferred>)
    requires Accounted(p, pending) && Needed(pending) <= Needed(more)
    ensures Accounted(p, more)
  {
  }

  lemma LatchNew(lines: seq<Line>, pending: seq<Deferred>, get: Line, d: Deferred, busy: seq<bool>, kept: set<nat>)
    requires Latched(lines, pending, kept) && 1 <= d.reg < 16
    requires Spares(lines + [get, RdsrLine(d.reg)], |lines|, busy, kept)
    requires forall p :: p in pending ==> 1 <= p.reg < 16 && p.reg < |busy| && busy[p.reg]
    ensures Latched(lines + [get, RdsrLine(d.reg)], pending + [d], kept)
  {
    hide Writes, RdsrLine;
    var all := lines + [get, RdsrLine(d.reg)];
    LatchedGrows(lines, [get, RdsrLine(d.reg)], pending, busy, kept);
    assert LatchedFor(all, d.reg, |lines| + 1, |all|);
    assert LatchedBefore(all, d.reg, |all|);
  }

  lemma ExpectTracked(e: Emitter, elseCode: Expr, e': Emitter, kept: set<nat>)
    requires Tracked(e, kept) && LowerExpect(e, elseCode) == Ok(e')
    ensures Tracked(e', kept) && Step(e, e', kept)
  {
    hide LowerExpect, EvalByte, Accounted, Named, Extends, Targeted, Latched, Spares, Clean, Sound, RdsrLine, GetLine,
         Judged, Unjudging;
    var d, r := ExpectLines(e, elseCode, e');
    ExpectSound(e, elseCode, e');
    ExpectPool(e, elseCode, e', d, kept);
    var block := [GetLine(r), RdsrLine(d.reg)];
    assert e'.lines == e.lines + block by { RdsrShape(d.reg); }
    ExpectClean(e, r, d.reg, kept);
    CleanSpares(e.lines, block, e.trailers, e.pool.busy, kept);
    UnjudgedGrows(e.lines, block, kept);
    PendingBusy(e);
    LatchNew(e.lines, Pending(e), GetLine(r), d, e.pool.busy, kept);
    ExpectAimed(e, r, d.reg);
    assert e.trailers + [] == e.trailers;
    TargetedGrows(e.lines, block, e.trailers, []);
    AccountedMore(e'.pool, Pending(e), Pending(e'));
    FreshReg(e, d.reg);
  }

  lemma RdsrShape(reg: nat)
    ensures RdsrLine(reg) == Op("rdsr", [Emit.Reg(reg), Ident("crc")])
  {
  }

  lemma PendingBusy(e: Emitter)
    requires Sound(e)
    ensures forall d :: d in Pending(e) ==> 1 <= d.reg < 16 && e.pool.busy[d.reg]
  {
  }

  lemma ExpectClean(e: Emitter, r: nat, reg: nat, kept: set<nat>)
    requires e.Valid() && 1 <= r < 16 && 1 <= reg < 16 && !e.pool.busy[r] && !e.pool.busy[reg]
    ensures Clean(e.lines, [GetLine(r), RdsrLine(reg)], e.trailers, e.pool.busy, kept)
    ensures Unjudging([GetLine(r), RdsrLine(reg)])
  {
    hide Writes, TargetOf, RdsrLine, Judges;
    GetLineWrites(r);
    RdsrLineWrites(reg);
    JudgesTarget(GetLine(r));
    JudgesTarget(RdsrLine(reg));
  }

  lemma ExpectAimed(e: Emitter, r: nat, reg: nat)
    requires 1 <= r < 16 && 1 <= reg < 16
    ensures forall k :: 0 <= k < 2 ==>
      Aimed(e.lines + [GetLine(r), RdsrLine(reg)], e.trailers + [], [GetLine(r), RdsrLine(reg)][k])
  {
    hide Writes, TargetOf, RdsrLine;
    GetLineWrites(r);
    RdsrLineWrites(reg);
  }

  lemma SimpleTracked(e: Emitter, s: Stmt, e': Emitter, kept: set<nat>)
    requires !s.Frame? && !s.CallProc? && !s.Repeat?
    requires Tracked(e, kept) && Keeps(s, kept) && EmitSimple(e, s) == Ok(e')
    ensures Tracked(e', kept) && Step(e, e', kept)
  {
    hide Tracked, Step, PushBytes, RecvAll, LowerWaitState, LowerExpect, EvalBytes, EvalSends, Harmless, RawKeeps,
         P.Write, CopiedLine, HaltLine, P.ReadAll;
    match s
    case Pass => HarmlessLines(0, 0, kept); LineTracked(e, HaltLine(0), e', kept);
    case Fail(code) => FailHarmless(code, kept); LineTracked(e, CopiedLine(HALT, [code]), e', kept);
    case Raw(mnemonic, operands) =>
      CopyHarmless(mnemonic, operands, kept);
      LineTracked(e, CopiedLine(mnemonic, operands), e', kept);
    case Config(keywords) =>
      ConfigKeeps(P.ReadAll(keywords), kept);
      CopyHarmless(SET_CONFIG, keywords, kept);
      LineTracked(e, CopiedLine(SET_CONFIG, keywords), e', kept);
    case Send(bytes, appendCrc) =>
      var b := EvalBytes(bytes, e.env).value;
      PutTracked(e, if appendCrc then b + [C.Crc8(b)] else b, e', kept);
    case CrcRegion(sends) =>
      var b := EvalSends(sends, e.env).value;
      PutTracked(e, b + [C.Crc8(b)], e', kept);
    case Recv(targets) => RecvAllTracked(e, targets, e', kept);
    case WaitState(bind) => WaitStateTracked(e, bind, e', kept);
    case Expect(elseCode) => ExpectTracked(e, elseCode, e', kept);
  }

  // ----- frames -----

  /** The branches of the verdicts, and the trailers they hoist. */
  function BnezLines(deferred: seq<Deferred>): (r: seq<Line>)
    ensures |r| == |deferred|
    ensures forall k :: 0 <= k < |r| ==> r[k] == BnezLine(deferred[k])
  {
    if deferred == [] then [] else [BnezLine(deferred[0])] + BnezLines(deferred[1..])
  }

  function TrailersOf(deferred: seq<Deferred>): (r: seq<Trailer>)
    ensures |r| == |deferred|
    ensures forall k :: 0 <= k < |r| ==> r[k] == Trailer(deferred[k].target, deferred[k].code)
  {
    if deferred == [] then [] else [Trailer(deferred[0].target, deferred[0].code)] + TrailersOf(deferred[1..])
  }

  lemma VerdictLinesSplit(deferred: seq<Deferred>)
    requires deferred != []
    ensures BnezLines(deferred) == [BnezLine(deferred[0])] + BnezLines(deferred[1..])
    ensures TrailersOf(deferred) == [Trailer(deferred[0].target, deferred[0].code)] + TrailersOf(deferred[1..])
  {
    hide BnezLine;
  }

  lemma {:induction false} VerdictLines(e: Emitter, deferred: seq<Deferred>, e': Emitter)
    requires e.Valid() && PushVerdicts(e, deferred) == Ok(e')
    ensures e'.lines == e.lines + BnezLines(deferred) && e'.trailers == e.trailers + TrailersOf(deferred)
    ensures e'.pool == e.pool
    decreases |deferred|
  {
    hide BnezLine, BnezLines, TrailersOf;
    if deferred != [] {
      var d := deferred[0];
      var e1 := Push(e, BnezLine(d)).value;
      VerdictLines(e1.(trailers := e1.trailers + [Trailer(d.target, d.code)]), deferred[1..], e');
      VerdictLinesSplit(deferred);
      Assoc(e.lines, [BnezLine(d)], BnezLines(deferred[1..]));
      Assoc(e.trailers, [Trailer(d.target, d.code)], TrailersOf(deferred[1..]));
    }
  }

  /** What closing a frame appends. */
  lemma CloseLines(e: Emitter, e': Emitter)
    requires e.Valid() && e.frames != [] && CloseFrame(e) == Ok(e')
    ensures e'.lines == e.lines + ([CS_DEASSERT] + BnezLines(e.frames[|e.frames| - 1]))
    ensures e'.trailers == e.trailers + TrailersOf(e.frames[|e.frames| - 1])
    ensures e'.pool == Exit(e.pool)
  {
    hide PushVerdicts, Exit, BnezLines, TrailersOf;
    var top := |e.frames| - 1;
    var e1 := Push(e.(frames := e.frames[..top]), CS_DEASSERT).value;
    VerdictLines(e1, e.frames[top], PushVerdicts(e1, e.frames[top]).value);
  }

  lemma CloseBlock(lines: seq<Line>, trailers: seq<Trailer>, deferred: seq<Deferred>, block: seq<Line>,
                   busy: seq<bool>, kept: set<nat>)
    requires forall d :: d in deferred ==> 1 <= d.reg < 16
    requires block == [CS_DEASSERT] + BnezLines(deferred)
    ensures Clean(lines, block, trailers + TrailersOf(deferred), busy, kept)
  {
    hide Writes, TargetOf, BnezLine;
    HarmlessLines(0, 0, kept);
    forall k | 0 <= k < |block|
      ensures Aimed(lines + block, trailers + TrailersOf(deferred), block[k])
      ensures forall r :: r in kept ==> !Writes(block[k], r)
    {
      if k > 0 {
        var d := deferred[k - 1];
        assert d in deferred && block[k] == BnezLine(d);
        BnezLineWrites(d);
        assert (trailers + TrailersOf(deferred))[|trailers| + (k - 1)].target == d.target;
      }
    }
  }

  /** The branches that close a frame look at what was latched for them. */
  lemma CloseJudged(lines: seq<Line>, deferred: seq<Deferred>, block: seq<Line>, kept: set<nat>)
    requires forall d :: d in deferred ==> 1 <= d.reg < 16
    requires block == [CS_DEASSERT] + BnezLines(deferred)
    requires Judged(lines, kept) && Latched(lines, deferred, kept)
    ensures Judged(lines + block, kept)
  {
    hide Writes, BnezLine, Judges, LatchedBefore, Judged;
    var all := lines + block;
    forall k | |lines| <= k < |all| ensures JudgedAt(all, k, kept) {
      if k == |lines| {
        HarmlessLines(0, 0, kept);
        JudgesTarget(CS_DEASSERT);
      } else {
        var d := deferred[k - |lines| - 1];
        assert d in deferred && all[k] == BnezLine(d);
        BnezLineWrites(d);
        if d.reg in kept {
          LatchedForGrows(lines, block, d.reg, |lines|);
          BranchesSpare(lines, deferred, all, d.reg);
          LatchedOn(all, d.reg, |lines|, k);
        }
      }
    }
    JudgedGrows(lines, block, kept);
  }

  lemma OpenTracked(e: Emitter, e1: Emitter, kept: set<nat>)
    requires Tracked(e, kept) && e.frames == [] && OpenFrame(e) == Ok(e1)
    ensures Tracked(e1, kept) && e1.pool == Enter(e.pool) && Pending(e1) == [] && e1.trailers == e.trailers
    ensures e1.lines == e.lines + [CS_ASSERT] && Spares(e1.lines, |e.lines|, e.pool.busy, kept)
  {
    hide Accounted, Named, Spares, Targeted, Clean, Aimed, Harmless, Enter, Judged, Unjudging, P.Write;
    assert Pending(e) == [];
    EnterAccounted(e.pool, []);
    EnterNamed(e.pool);
    HarmlessLines(0, 0, kept);
    HarmlessClean(e.lines, CS_ASSERT, e.trailers, e.pool.busy, kept);
    CleanSpares(e.lines, [CS_ASSERT], e.trailers, e.pool.busy, kept);
    UnjudgedGrows(e.lines, [CS_ASSERT], kept);
    CleanAimed(e.lines, [CS_ASSERT], e.trailers, e.pool.busy, kept);
    assert e.trailers + [] == e.trailers;
    TargetedGrows(e.lines, [CS_ASSERT], e.trailers, []);
    assert e1.pool == Enter(e.pool);
  }

  lemma CleanAimed(lines: seq<Line>, block: seq<Line>, trailers: seq<Trailer>, busy: seq<bool>, kept: set<nat>)
    requires Clean(lines, block, trailers, busy, kept)
    ensures forall k :: 0 <= k < |block| ==> Aimed(lines + block, trailers, block[k])
  {
    hide Writes, Aimed;
  }

  lemma EnterSame(p: Pool)
    ensures Enter(p).busy == p.busy
  {
  }

  /** A frame gives back everything it took. */
  lemma FrameTracked(e: Emitter, e1: Emitter, e2: Emitter, e': Emitter, kept: set<nat>)
    requires Tracked(e, kept) && e.frames == [] && OpenFrame(e) == Ok(e1)
    requires Tracked(e2, kept) && |e2.frames| == 1 && Step(e1, e2, kept) && CloseFrame(e2) == Ok(e') && Sound(e')
    ensures Tracked(e', kept) && Step(e, e', kept)
    ensures e'.pool.busy == e.pool.busy && e'.pool.scopes == e.pool.scopes
  {
    hide OpenFrame, CloseFrame, Sound, Accounted, Named, Spares, Targeted, Clean, BnezLines, TrailersOf, Extends,
         Enter, Exit, Aimed, Latched, Judged;
    OpenTracked(e, e1, kept);
    var deferred := Pending(e2);
    PendingBusy(e2);
    CloseLines(e2, e');
    EnterSame(e.pool);
    FrameExit(e.pool, e2.pool, deferred);
    ExitNamed(e2.pool);
    var block := [CS_DEASSERT] + BnezLines(deferred);
    CloseBlock(e2.lines, e2.trailers, deferred, block, e.pool.busy, kept);
    CleanSpares(e2.lines, block, e2.trailers + TrailersOf(deferred), e.pool.busy, kept);
    CloseJudged(e2.lines, deferred, block, kept);
    CleanAimed(e2.lines, block, e2.trailers + TrailersOf(deferred), e.pool.busy, kept);
    TargetedGrows(e2.lines, block, e2.trailers, TrailersOf(deferred));
    SparesTrans(e.lines, e1.lines, e2.lines, e.pool.busy, e1.pool.busy, kept);
    SparesTrans(e.lines, e2.lines, e'.lines, e.pool.busy, e.pool.busy, kept);
    NothingPending(e', kept);
    SamePools(e.pool, e'.pool);
  }

  lemma SamePools(p: Pool, q: Pool)
    requires Accounted(p, []) && q.busy == p.busy && q.scopes == p.scopes
    ensures Accounted(q, []) && Extends(p, q)
  {
    assert forall k, n :: 0 <= k < |p.scopes| ==> (Owns(q, k, n) <==> Owns(p, k, n));
  }

  lemma NothingPending(e: Emitter, kept: set<nat>)
    requires e.frames == []
    ensures Pending(e) == [] && Latched(e.lines, [], kept) && DistinctRegs([])
  {
  }

  // ----- expansions -----

  lemma EnterTracked(e: Emitter, e1: Emitter, kept: set<nat>)
    requires Tracked(e, kept) && EnterExpansion(e) == Ok(e1)
    ensures Tracked(e1, kept) && e1.pool == Enter(e.pool) && e1.pool.busy == e.pool.busy
  {
    hide Accounted, Named, Latched, Targeted, DistinctRegs, Judged;
    EnterAccounted(e.pool, Pending(e));
    EnterNamed(e.pool);
  }

  /** The environment and the call chain do not matter to any of this. */
  lemma TrackedContext(e: Emitter, e': Emitter, kept: set<nat>)
    requires Tracked(e, kept)
    requires e'.lines == e.lines && e'.pool == e.pool && e'.frames == e.frames && e'.trailers == e.trailers
    ensures Tracked(e', kept)
  {
    hide Accounted, Latched, Targeted, DistinctRegs, Judged;
  }

  /** Leaving an expansion keeps exactly the registers busy at its entry and those of pending verdicts. */
  lemma ExitTracked(e: Emitter, e1: Emitter, e2: Emitter, e': Emitter, kept: set<nat>)
    requires Tracked(e, kept) && Tracked(e1, kept) && e1.pool == Enter(e.pool) && e1.frames == e.frames
    requires e1.lines == e.lines
    requires Tracked(e2, kept) && Step(e1, e2, kept) && |e2.frames| == |e.frames| && e' == ExitExpansion(e2)
    ensures Tracked(e', kept) && Step(e, e', kept) && Pending(e') == Pending(e2)
    ensures forall n :: 0 <= n < 16 ==> (e'.pool.busy[n] <==> e.pool.busy[n] || n in Needed(Pending(e')))
  {
    hide Accounted, Named, Latched, Targeted, DistinctRegs, Spares, Extends, Exit, ReserveAll, Enter, Judged;
    var before, pending := Pending(e), Pending(e2);
    EnterSame(e.pool);
    PendingBusy(e);
    PendingBusy(e2);
    ExitSound(e2);
    DefersMembers(e.pool.busy, before, pending);
    ExpansionExit(e.pool, e2.pool, before, pending);
    ExitValid(e2.pool);
    ReserveNothing(Exit(e2.pool));
    ExitNamed(e2.pool);
    ReserveAllNamed(Exit(e2.pool), pending);
    var q := ReserveAll(Exit(e2.pool), pending);
    ReservedAccounted(e.pool, before, q, pending);
    assert e'.pool == q;
  }

  lemma ExitValid(p: Pool)
    requires p.Valid()
    ensures Exit(p).Valid()
  {
  }

  lemma ReserveNothing(p: Pool)
    requires p.Valid()
    ensures ReserveAll(p, []) == p
  {
  }

  lemma DefersMembers(busy: seq<bool>, before: seq<Deferred>, after: seq<Deferred>)
    requires Defers(busy, before, after)
    ensures forall d :: d in before ==> d in after
    ensures forall d :: d in after && d !in before ==> d.reg < |busy| && !busy[d.reg]
  {
    forall i | 0 <= i < |before| ensures after[i] == before[i] {
      assert after[..|before|][i] == before[i];
    }
  }

  // ----- every statement -----

  lemma {:induction false} StmtTracked(e: Emitter, s: Stmt, e': Emitter, kept: set<nat>)
    requires Tracked(e, kept) && EmitStmt(e, s) == Ok(e') && Keeps(s, kept) && ProcsKeep(e.procs, kept)
    ensures Tracked(e', kept) && Step(e, e', kept)
    decreases IdleProcs(e), s, 0
  {
    hide Tracked, Step, EmitSimple, OpenFrame, CloseFrame, EvalInt, EmitBody, EmitRepeat, EmitCall, ProcsKeep;
    match s
    case Frame(body) => FrameConserves(e, body, e', kept);
    case CallProc(name, args) => CallTracked(e, name, args, e', kept);
    case Repeat(count, body) => RepeatTracked(e, EvalInt(count, e.env).value, body, e', kept);
    case _ => SimpleTracked(e, s, e', kept);
  }

  /** A frame leaves the busy registers and the scopes exactly as they were. */
  lemma {:induction false} FrameConserves(e: Emitter, body: seq<Stmt>, e': Emitter, kept: set<nat>)
    requires Tracked(e, kept) && EmitStmt(e, Frame(body)) == Ok(e') && AllKeep(body, kept) && ProcsKeep(e.procs, kept)
    ensures Tracked(e', kept) && Step(e, e', kept)
    ensures e'.pool.busy == e.pool.busy && e'.pool.scopes == e.pool.scopes
    decreases IdleProcs(e), body, 1
  {
    hide Tracked, Step, OpenFrame, CloseFrame, EmitBody, ProcsKeep, Keeps;
    assert e.frames == [];
    var e1 := OpenFrame(e).value;
    assert IdleProcs(e1) == IdleProcs(e);
    var e2 := EmitBody(e1, body).value;
    OpenTracked(e, e1, kept);
    BodyTracked(e1, body, e2, kept);
    CloseSound(e2, e');
    FrameTracked(e, e1, e2, e', kept);
  }

  lemma {:induction false} BodyTracked(e: Emitter, body: seq<Stmt>, e': Emitter, kept: set<nat>)
    requires Tracked(e, kept) && EmitBody(e, body) == Ok(e') && AllKeep(body, kept) && ProcsKeep(e.procs, kept)
    ensures Tracked(e', kept) && Step(e, e', kept)
    decreases IdleProcs(e), body, 0
  {
    hide Tracked, Step, EmitStmt, ProcsKeep, Keeps;
    StepSelf(e, kept);
    if body != [] {
      var e1 := EmitStmt(e, body[0]).value;
      assert IdleProcs(e1) == IdleProcs(e);
      StmtTracked(e, body[0], e1, kept);
      BodyTracked(e1, body[1..], e', kept);
      StepTrans(e, e1, e', kept);
    }
  }

  /** A call keeps exactly the registers busy before it and those of the verdicts it deferred. */
  lemma {:induction false} CallTracked(e: Emitter, name: string, args: seq<Arg>, e': Emitter, kept: set<nat>)
    requires Tracked(e, kept) && EmitCall(e, name, args) == Ok(e') && ProcsKeep(e.procs, kept)
    ensures Tracked(e', kept) && Step(e, e', kept)
    ensures forall n :: 0 <= n < 16 ==> (e'.pool.busy[n] <==> e.pool.busy[n] || n in Needed(Pending(e')))
    decreases IdleProcs(e), args, 0
  {
    hide Tracked, Step, EmitBody, BindArgs, ExitExpansion, AllKeep, EnterExpansion, Enter;
    var p := e.procs[name];
    var bindings := BindArgs(name, p.params, args, e.env).value;
    var e1 := EnterExpansion(e).value;
    EnterTracked(e, e1, kept);
    EnteredOnly(e, e1);
    var e2 := Inlined(e1, name, bindings);
    TrackedContext(e1, e2, kept);
    assert name in IdleProcs(e) && name !in IdleProcs(e2) && IdleProcs(e2) < IdleProcs(e);
    var e3 := EmitBody(e2, p.body).value;
    BodyTracked(e2, p.body, e3, kept);
    var e4 := e3.(env := e.env, active := e.active);
    TrackedContext(e3, e4, kept);
    StepContext(e2, e3, e4, kept);
    ExitTracked(e, e2, e4, e', kept);
  }

  lemma EnteredOnly(e: Emitter, e1: Emitter)
    requires e.Valid() && EnterExpansion(e) == Ok(e1)
    ensures e1 == e.(expansions := e1.expansions, pool := e1.pool)
  {
  }

  lemma StepContext(e: Emitter, e1: Emitter, e2: Emitter, kept: set<nat>)
    requires e.Valid() && Step(e, e1, kept) && e2.lines == e1.lines && e2.pool == e1.pool && e2.frames == e1.frames
    ensures Step(e, e2, kept)
  {
    hide Extends, Defers, Spares;
  }

  /** So does each iteration of a `repeat`, and so does the whole of it. */
  lemma {:induction false} RepeatTracked(e: Emitter, n: nat, body: seq<Stmt>, e': Emitter, kept: set<nat>)
    requires Tracked(e, kept) && EmitRepeat(e, n, body) == Ok(e') && AllKeep(body, kept) && ProcsKeep(e.procs, kept)
    ensures Tracked(e', kept) && Step(e, e', kept)
    ensures forall n :: 0 <= n < 16 ==> (e'.pool.busy[n] <==> e.pool.busy[n] || n in Needed(Pending(e')))
    decreases IdleProcs(e), body, 1, n
  {
    hide Tracked, Step, EmitBody, ExitExpansion, AllKeep, EnterExpansion, ProcsKeep, Enter;
    StepSelf(e, kept);
    PendingBusy(e);
    if n > 0 {
      var e1 := EnterExpansion(e).value;
      EnterTracked(e, e1, kept);
      EnteredOnly(e, e1);
      assert IdleProcs(e1) == IdleProcs(e);
      var e2 := EmitBody(e1, body).value;
      BodyTracked(e1, body, e2, kept);
      var e3 := ExitExpansion(e2);
      ExitTracked(e, e1, e2, e3, kept);
      assert IdleProcs(e3) == IdleProcs(e);
      RepeatTracked(e3, n - 1, body, e', kept);
      StepTrans(e, e3, e', kept);
      PendingKept(e3, e', kept);
    }
  }

  lemma PendingKept(e: Emitter, e': Emitter, kept: set<nat>)
    requires e.Valid() && Step(e, e', kept)
    ensures Needed(Pending(e)) <= Needed(Pending(e'))
  {
    DefersMembers(e.pool.busy, Pending(e), Pending(e'));
  }

  // ----- verdicts reach their branches -----

  /**
   * Each verdict of a closing frame, its register in `kept`, is branched on in the register its
   * residue was latched in, the registers are pairwise distinct, and no line between the latch and
   * the branch writes it.
   */
  lemma VerdictsReachBranches(e: Emitter, e': Emitter, j: nat, kept: set<nat>) returns (i: nat)
    requires Tracked(e, kept) && |e.frames| == 1 && CloseFrame(e) == Ok(e') && j < |Pending(e)|
    requires Pending(e)[j].reg in kept
    ensures var branch := |e.lines| + 1 + j;
            && i < branch < |e'.lines|
            && e'.lines[i] == RdsrLine(Pending(e)[j].reg)
            && e'.lines[branch] == BnezLine(Pending(e)[j])
            && (forall k :: i < k < branch ==> !Writes(e'.lines[k], Pending(e)[j].reg))
            && (forall h :: 0 <= h < |Pending(e)| && h != j ==> Pending(e)[h].reg != Pending(e)[j].reg)
  {
    hide Sound, Accounted, Targeted, CloseFrame, Writes, RdsrLine, BnezLine, Judged;
    var pending := Pending(e);
    var d := pending[j];
    assert d in pending;
    CloseLines(e, e');
    i :| LatchedFor(e.lines, d.reg, i, |e.lines|);
    PendingBusy(e);
    BranchesSpare(e.lines, pending, e'.lines, d.reg);
  }

  /** The lines that close a frame write no register. */
  lemma BranchesSpare(lines: seq<Line>, pending: seq<Deferred>, lines': seq<Line>, r: nat)
    requires forall d :: d in pending ==> 1 <= d.reg < 16
    requires lines' == lines + ([CS_DEASSERT] + BnezLines(pending))
    ensures forall k :: |lines| <= k < |lines'| ==> !Writes(lines'[k], r)
  {
    hide Writes, BnezLine;
    HarmlessLines(0, 0, {r});
    forall k | |lines| <= k < |lines'| ensures !Writes(lines'[k], r) {
      if k == |lines| {
        assert lines'[k] == CS_DEASSERT;
      } else {
        var d := pending[k - |lines| - 1];
        assert d in pending && lines'[k] == BnezLine(d);
        BnezLineWrites(d);
      }
    }
  }
}
