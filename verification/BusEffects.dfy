/** What the pin, bus and control lines do, in the vocabulary of `Effects`. */
module BusEffects {
  import opened Prelude
  import opened Text
  import opened Isa
  import opened Machine
  import opened Asm
  import opened Encoder
  import opened Assembler
  import opened LabelMachine
  import opened Operands
  import opened Effects
  import C = Crc8

  // ----- pins -----

  lemma BareStep(lines: seq<Line>, s: State, mnemonic: string, i: Straight)
    requires On(lines, s, mnemonic, [])
    requires (MnemonicOf(mnemonic), i) in [(MCsAssert, CsAssert), (MCsDeassert, CsDeassert), (MRstAssert, RstAssert),
                                           (MRstDeassert, RstDeassert), (MCrcReset, CrcReset)]
    ensures StepLine(lines, s) == After(s, Exec(i, s.regs, s.dev))
  {
    hide On, MnemonicOf, StepLine, Equs, Exec, ResolveMixed;
    assert Args([], Equs(lines)) == [];
    PlainStep(lines, s, mnemonic, [], i);
  }

  lemma CsAsserts(lines: seq<Line>, s: State)
    requires On(lines, s, "cs_assert", [])
    ensures StepLine(lines, s) == Did(s, s.dev.(csLow := true, log := s.dev.log + [CsLow]))
  {
    hide StepLine;
    BareStep(lines, s, "cs_assert", CsAssert);
  }

  lemma CsDeasserts(lines: seq<Line>, s: State)
    requires On(lines, s, "cs_deassert", [])
    ensures StepLine(lines, s) == Did(s, s.dev.(csLow := false, log := s.dev.log + [CsHigh]))
  {
    hide StepLine;
    BareStep(lines, s, "cs_deassert", CsDeassert);
  }

  lemma RstAsserts(lines: seq<Line>, s: State)
    requires On(lines, s, "rst_assert", [])
    ensures StepLine(lines, s) == Did(s, s.dev.(rstLow := true, log := s.dev.log + [RstLow]))
  {
    hide StepLine;
    BareStep(lines, s, "rst_assert", RstAssert);
  }

  lemma RstDeasserts(lines: seq<Line>, s: State)
    requires On(lines, s, "rst_deassert", [])
    ensures StepLine(lines, s) == Did(s, s.dev.(rstLow := false, log := s.dev.log + [RstHigh]))
  {
    hide StepLine;
    BareStep(lines, s, "rst_deassert", RstDeassert);
  }

  lemma CrcResets(lines: seq<Line>, s: State)
    requires On(lines, s, "crc_reset", [])
    ensures StepLine(lines, s) == Did(s, s.dev.(crc := 0))
  {
    hide StepLine;
    BareStep(lines, s, "crc_reset", CrcReset);
  }

  // ----- driving the bus -----

  lemma PutOps(a: seq<Actual>, x: Operand, p: Window, v: i64)
    requires |a| == 1 && a[0].op == x
    ensures Names(x, p) ==> ResolvePut(a) == Ok(PutByteReg(p)) && ResolveTar(a) == Ok(TarReg(p))
    ensures NoRegister(x) && a[0].imm == Ok(v) ==>
              && ResolvePut(a) == (if 0 <= v <= 255 then Ok(PutByteImm(v)) else Err(BadLine))
              && ResolveTar(a) == (if 0 <= v <= 15 then Ok(TarImm(v)) else Err(BadLine))
  {
    hide ResolveReg, IsRegister, Names, NoRegister;
    if Names(x, p) { NamesResolve(x, p); }
    if NoRegister(x) { NotRegister(x); }
  }

  lemma PutInstr(a: seq<Actual>)
    ensures ResolveOp(MPutByte, a) == match ResolvePut(a) case Ok(i) => Ok(Plain(i)) case Err(e) => Err(e)
    ensures ResolveOp(MPutBits, a) == match ResolvePutBits(a) case Ok(i) => Ok(Plain(i)) case Err(e) => Err(e)
    ensures ResolveOp(MTar, a) == match ResolveTar(a) case Ok(i) => Ok(Plain(i)) case Err(e) => Err(e)
  {
    hide ResolvePut, ResolvePutBits, ResolveTar, ResolveMixed;
  }

  /** The low byte of a register. */
  lemma PutsRegister(lines: seq<Line>, s: State, x: Operand, p: Window)
    requires On(lines, s, "put_byte", [x]) && Names(x, p)
    ensures StepLine(lines, s) == Showed(s, Event.Put(X(s, p) % 256))
  {
    hide StepLine, Names, NoRegister, Equs, ResolvePut, ResolveTar, ResolveOp, X, Read;
    PutOps(Args([x], Equs(lines)), x, p, 0);
    PutInstr(Args([x], Equs(lines)));
    Reads(s, p);
    PlainStep(lines, s, "put_byte", [x], PutByteReg(p));
  }

  lemma PutsByte(lines: seq<Line>, s: State, x: Operand, v: i64)
    requires On(lines, s, "put_byte", [x]) && NoRegister(x) && Worth(lines, x, v)
    ensures StepLine(lines, s) == if 0 <= v <= 255 then Showed(s, Event.Put(v)) else NoMeaning(s)
  {
    hide StepLine, Names, NoRegister, Worth, Equs, ResolveImm, ResolvePut, ResolveTar, ResolveOp, NoMeaning;
    WorthResolves(lines, x, v);
    PutOps(Args([x], Equs(lines)), x, 0, v);
    PutInstr(Args([x], Equs(lines)));
    if 0 <= v <= 255 {
      PlainStep(lines, s, "put_byte", [x], PutByteImm(v));
    } else {
      BadStep(lines, s, "put_byte", [x]);
    }
  }

  lemma PutBitsOps(a: seq<Actual>, x: Operand, p: Window, n: i64, v: i64)
    requires |a| == 2 && a[0].op == x
    ensures Names(x, p) && a[1].imm == Ok(n) ==>
              ResolvePutBits(a) == if 1 <= n <= 8 then Ok(PutBitsReg(p, n)) else Err(BadLine)
    ensures NoRegister(x) && a[0].imm == Ok(n) && a[1].imm == Ok(v) ==>
              ResolvePutBits(a) == if 1 <= n <= 8 && 0 <= v <= 255 then Ok(PutBitsImm(n, v)) else Err(BadLine)
  {
    hide ResolveReg, IsRegister, Names, NoRegister;
    if Names(x, p) { NamesResolve(x, p); }
    if NoRegister(x) { NotRegister(x); }
  }

  lemma PutsRegisterBits(lines: seq<Line>, s: State, x: Operand, y: Operand, p: Window, n: i64)
    requires On(lines, s, "put_bits", [x, y]) && Names(x, p) && Worth(lines, y, n)
    ensures StepLine(lines, s) == if 1 <= n <= 8 then Showed(s, Event.PutBits(n, X(s, p) % 256)) else NoMeaning(s)
  {
    hide StepLine, Names, NoRegister, Worth, Equs, ResolveImm, ResolvePutBits, ResolveOp, NoMeaning, X, Read;
    WorthResolves(lines, y, n);
    PutBitsOps(Args([x, y], Equs(lines)), x, p, n, 0);
    PutInstr(Args([x, y], Equs(lines)));
    Reads(s, p);
    if 1 <= n <= 8 {
      PlainStep(lines, s, "put_bits", [x, y], PutBitsReg(p, n));
    } else {
      BadStep(lines, s, "put_bits", [x, y]);
    }
  }

  lemma PutsSomeBits(lines: seq<Line>, s: State, x: Operand, y: Operand, n: i64, v: i64)
    requires On(lines, s, "put_bits", [x, y]) && NoRegister(x) && Worth(lines, x, n) && Worth(lines, y, v)
    ensures StepLine(lines, s) == if 1 <= n <= 8 && 0 <= v <= 255 then Showed(s, Event.PutBits(n, v)) else NoMeaning(s)
  {
    hide StepLine, Names, NoRegister, Worth, Equs, ResolveImm, ResolvePutBits, ResolveOp, NoMeaning;
    WorthResolves(lines, x, n);
    WorthResolves(lines, y, v);
    PutBitsOps(Args([x, y], Equs(lines)), x, 0, n, v);
    PutInstr(Args([x, y], Equs(lines)));
    if 1 <= n <= 8 && 0 <= v <= 255 {
      PlainStep(lines, s, "put_bits", [x, y], PutBitsImm(n, v));
    } else {
      BadStep(lines, s, "put_bits", [x, y]);
    }
  }

  /** Turning the bus around for no clocks shows nothing. */
  function TurnedFor(s: State, clocks: nat): State {
    if clocks == 0 then s.(pc := s.pc + 1) else Showed(s, Event.Turn(clocks))
  }

  lemma TurnsByRegister(lines: seq<Line>, s: State, x: Operand, p: Window)
    requires On(lines, s, "tar", [x]) && Names(x, p)
    ensures StepLine(lines, s) == TurnedFor(s, X(s, p) % 16)
  {
    hide StepLine, Names, NoRegister, Equs, ResolvePut, ResolveTar, ResolveOp, X, Read;
    PutOps(Args([x], Equs(lines)), x, p, 0);
    PutInstr(Args([x], Equs(lines)));
    Reads(s, p);
    PlainStep(lines, s, "tar", [x], TarReg(p));
  }

  lemma Turns(lines: seq<Line>, s: State, x: Operand, v: i64)
    requires On(lines, s, "tar", [x]) && NoRegister(x) && Worth(lines, x, v)
    ensures StepLine(lines, s) == if 0 <= v <= 15 then TurnedFor(s, v) else NoMeaning(s)
  {
    hide StepLine, Names, NoRegister, Worth, Equs, ResolveImm, ResolvePut, ResolveTar, ResolveOp, NoMeaning;
    WorthResolves(lines, x, v);
    PutOps(Args([x], Equs(lines)), x, 0, v);
    PutInstr(Args([x], Equs(lines)));
    if 0 <= v <= 15 {
      PlainStep(lines, s, "tar", [x], TarImm(v));
    } else {
      BadStep(lines, s, "tar", [x]);
    }
  }

  // ----- sampling -----

  /** The next line, register `d` holding `v` and `e` seen; one element of the input is used up. */
  function Sampled(s: State, d: Window, v: u32, e: Event): State
    requires s.dev.rx != []
  {
    Wrote(s, d, v).(dev := s.dev.(rx := s.dev.rx[1..], log := s.dev.log + [e]))
  }

  function Starves(s: State): State { s.(status := Starved) }

  lemma GetsByte(lines: seq<Line>, s: State, x: Operand, d: Window)
    requires On(lines, s, "get_byte", [x]) && Names(x, d)
    ensures StepLine(lines, s)
         == if s.dev.rx == [] then Starves(s) else
            var r := Sampled(s, d, s.dev.rx[0], Got(s.dev.rx[0]));
            r.(dev := r.dev.(crc := C.Update(s.dev.crc, s.dev.rx[0])))
  {
    hide StepLine, Names, Equs, ResolveReg, C.Update, ResolveMixed, ResolveConfig;
    NamesResolve(x, d);
    PlainStep(lines, s, "get_byte", [x], GetByte(d));
  }

  lemma SampleOps(a: seq<Actual>, x: Operand, d: Window, n: i64)
    requires |a| == 2 && a[0].op == x && Names(x, d) && a[1].imm == Ok(n)
    ensures ResolveOp(MGetBits, a) == if 1 <= n <= 8 then Ok(Plain(GetBits(d, n))) else Err(BadLine)
  {
    hide ResolveReg, Names;
    NamesResolve(x, d);
  }

  /** The low `n` bits of the sample. */
  function LowBits(b: byte, n: nat): byte
    requires n <= 8
  {
    match n
    case 1 => b % 2
    case 2 => b % 4
    case 3 => b % 8
    case 4 => b % 16
    case 5 => b % 32
    case 6 => b % 64
    case 7 => b % 128
    case 8 => b
    case _ => 0
  }

  lemma LowBitsIs(b: byte, n: nat)
    requires 1 <= n <= 8
    ensures b % Machine.Pow2(n) == LowBits(b, n)
  {
  }

  lemma GetsBits(lines: seq<Line>, s: State, x: Operand, y: Operand, d: Window, n: i64)
    requires On(lines, s, "get_bits", [x, y]) && Names(x, d) && Worth(lines, y, n)
    ensures StepLine(lines, s)
         == if !(1 <= n <= 8) then NoMeaning(s) else if s.dev.rx == [] then Starves(s) else
            Sampled(s, d, LowBits(s.dev.rx[0], n), GotBits(n, LowBits(s.dev.rx[0], n)))
  {
    hide StepLine, Names, Worth, Equs, ResolveImm, ResolveOp, Machine.Pow2, LowBits;
    WorthResolves(lines, y, n);
    SampleOps(Args([x, y], Equs(lines)), x, d, n);
    if 1 <= n <= 8 {
      if s.dev.rx != [] {
        LowBitsIs(s.dev.rx[0], n);
      }
      PlainStep(lines, s, "get_bits", [x, y], GetBits(d, n));
    } else {
      BadStep(lines, s, "get_bits", [x, y]);
    }
  }

  lemma GetsAlert(lines: seq<Line>, s: State, x: Operand, d: Window)
    requires On(lines, s, "get_alert", [x]) && Names(x, d)
    ensures StepLine(lines, s)
         == if s.dev.rx == [] then Starves(s) else Sampled(s, d, s.dev.rx[0] % 2, Alert(s.dev.rx[0] % 2))
  {
    hide StepLine, Names, Equs, ResolveReg, ResolveMixed, ResolveConfig;
    NamesResolve(x, d);
    PlainStep(lines, s, "get_alert", [x], GetAlert(d));
  }

  lemma WaitOps(a: seq<Actual>, x: Operand, d: Window, c: i64, t: i64)
    requires |a| == 3 && a[0].op == x && Names(x, d) && a[1].imm == Ok(c) && a[2].imm == Ok(t)
    ensures ResolveOp(MWaitOn, a)
         == if 0 <= c <= 3 && 0 <= t <= 511 then Ok(Plain(WaitOn(d, c, t))) else Err(BadLine)
  {
    hide ResolveReg, Names;
    NamesResolve(x, d);
  }

  lemma Waits(lines: seq<Line>, s: State, x: Operand, y: Operand, z: Operand, d: Window, c: i64, t: i64)
    requires On(lines, s, "wait_on", [x, y, z]) && Names(x, d) && Worth(lines, y, c) && Worth(lines, z, t)
    ensures StepLine(lines, s)
         == if !(0 <= c <= 3 && 0 <= t <= 511) then NoMeaning(s) else if s.dev.rx == [] then Starves(s) else
            Sampled(s, d, s.dev.rx[0] % 2, Waited(c, t, s.dev.rx[0] % 2))
  {
    hide StepLine, Names, Worth, Equs, ResolveImm, ResolveOp;
    WorthResolves(lines, y, c);
    WorthResolves(lines, z, t);
    WaitOps(Args([x, y, z], Equs(lines)), x, d, c, t);
    if 0 <= c <= 3 && 0 <= t <= 511 {
      PlainStep(lines, s, "wait_on", [x, y, z], WaitOn(d, c, t));
    } else {
      BadStep(lines, s, "wait_on", [x, y, z]);
    }
  }

  // ----- control -----

  lemma Halts(lines: seq<Line>, s: State, x: Operand, v: i64)
    requires On(lines, s, "halt", [x]) && Worth(lines, x, v)
    ensures StepLine(lines, s) == if 0 <= v <= 255 then s.(status := Halted(v)) else NoMeaning(s)
  {
    hide StepLine, Worth, Equs, ResolveImm, ResolveConfig;
    WorthResolves(lines, x, v);
    if 0 <= v <= 255 {
      PlainStep(lines, s, "halt", [x], Halt(v));
    } else {
      BadStep(lines, s, "halt", [x]);
    }
  }

  lemma MarkOps(a: seq<Actual>, y: Operand, t: i64, p: Window)
    requires |a| == 2 && a[1].op == y && Names(y, p) && a[0].imm == Ok(t)
    ensures ResolveOp(MMark, a) == if 0 <= t <= 2047 then Ok(Plain(Mark(t, p))) else Err(BadLine)
  {
    hide ResolveReg, Names;
    NamesResolve(y, p);
  }

  lemma Marks(lines: seq<Line>, s: State, x: Operand, y: Operand, t: i64, p: Window)
    requires On(lines, s, "mark", [x, y]) && Worth(lines, x, t) && Names(y, p)
    ensures StepLine(lines, s) == if 0 <= t <= 2047 then Showed(s, Marked(t, X(s, p))) else NoMeaning(s)
  {
    hide StepLine, Names, Worth, Equs, ResolveImm, ResolveOp, X, Read;
    WorthResolves(lines, x, t);
    MarkOps(Args([x, y], Equs(lines)), y, t, p);
    Reads(s, p);
    if 0 <= t <= 2047 {
      PlainStep(lines, s, "mark", [x, y], Mark(t, p));
    } else {
      BadStep(lines, s, "mark", [x, y]);
    }
  }

  /** Both pins high; an observer sees those that were low rise, CS# first. */
  function Safe(dev: Device): Device {
    dev.(csLow := false, rstLow := false,
         log := dev.log + (if dev.csLow then [CsHigh] else []) + (if dev.rstLow then [RstHigh] else []))
  }

  lemma SafeIs(dev: Device)
    ensures PinsSafe(dev) == Safe(dev)
  {
    assert dev.log + [] == dev.log;
    assert (dev.log + [CsHigh]) + [] == dev.log + [CsHigh];
  }

  lemma StatusOps(a: seq<Actual>, x: Operand, y: Operand, d: Window, n: i64)
    requires |a| == 2 && a[0].op == x && a[1].op == y && Names(x, d)
    ensures y.Ident? && LowerCase(y.name) == "crc" ==> ResolveOp(MRdsr, a) == Ok(Plain(Rdsr(d, 0)))
    ensures !(y.Ident? && LowerCase(y.name) == "crc") && a[1].imm == Ok(n) ==>
              ResolveOp(MRdsr, a) == if 0 <= n <= 31 then Ok(Plain(Rdsr(d, n))) else Err(BadLine)
  {
    hide ResolveReg, Names, LowerCase;
    NamesResolve(x, d);
  }

  /** Status register 0 is the CRC, by number or by name in any case. */
  lemma ReadsCrc(lines: seq<Line>, s: State, x: Operand, y: Operand, d: Window)
    requires On(lines, s, "rdsr", [x, y]) && Names(x, d)
    requires y == Num(0) || (y.Ident? && LowerCase(y.name) == "crc")
    ensures StepLine(lines, s) == Wrote(s, d, s.dev.crc)
  {
    hide StepLine, Names, Equs, ResolveOp, LowerCase;
    StatusOps(Args([x, y], Equs(lines)), x, y, d, 0);
    PlainStep(lines, s, "rdsr", [x, y], Rdsr(d, 0));
  }

  /** There is no other status register: reading one traps. */
  lemma ReadsStatus(lines: seq<Line>, s: State, x: Operand, y: Operand, d: Window, n: i64)
    requires On(lines, s, "rdsr", [x, y]) && Names(x, d) && Worth(lines, y, n) && n != 0
    requires y.Ident? ==> LowerCase(y.name) != "crc"
    ensures StepLine(lines, s)
         == if 1 <= n <= 31 then s.(dev := Safe(s.dev), status := Trapped(3)) else NoMeaning(s)
  {
    hide StepLine, Names, Worth, Equs, ResolveImm, ResolveOp, LowerCase, PinsSafe, Safe;
    WorthResolves(lines, y, n);
    StatusOps(Args([x, y], Equs(lines)), x, y, d, n);
    SafeIs(s.dev);
    if 1 <= n <= 31 {
      PlainStep(lines, s, "rdsr", [x, y], Rdsr(d, n));
    } else {
      BadStep(lines, s, "rdsr", [x, y]);
    }
  }

  predicate Spells(op: Operand, word: string) { op.Ident? && LowerCase(op.name) == word }

  lemma ConfigOps(a: seq<Actual>, w: Operand, x: Operand, y: Operand, z: Operand)
    requires |a| == 4 && a[0].op == w && a[1].op == x && a[2].op == y && a[3].op == z
    ensures ConfigOf(a)
         == if !(Spells(w, "controller") && Spells(x, "x1") && Spells(y, "sck20")) then None
            else if Spells(z, "alert_pin") then Some(0) else if Spells(z, "alert_io1") then Some(1) else None
  {
    hide LowerCase;
  }

  lemma ConfigInstr(a: seq<Actual>)
    ensures ResolveOp(MSetConfig, a)
         == match ConfigOf(a) case Some(p) => Ok(Plain(SetConfig(p))) case None => Err(BadLine)
  {
    hide ResolveConfig, ConfigOf;
    ConfigIs(a);
  }

  /** Keywords may be in any case; what this version does not support has no meaning. */
  lemma Configures(lines: seq<Line>, s: State, w: Operand, x: Operand, y: Operand, z: Operand)
    requires On(lines, s, "set_config", [w, x, y, z])
    ensures StepLine(lines, s)
         == if !(Spells(w, "controller") && Spells(x, "x1") && Spells(y, "sck20")) then NoMeaning(s)
            else if Spells(z, "alert_pin") then Showed(s, Configured(0))
            else if Spells(z, "alert_io1") then Showed(s, Configured(1))
            else NoMeaning(s)
  {
    hide StepLine, Equs, ResolveOp, ConfigOf, Spells, NoMeaning;
    var a := Args([w, x, y, z], Equs(lines));
    ConfigOps(a, w, x, y, z);
    ConfigInstr(a);
    match ConfigOf(a)
    case Some(p) => PlainStep(lines, s, "set_config", [w, x, y, z], SetConfig(p));
    case None => BadStep(lines, s, "set_config", [w, x, y, z]);
  }

  // ----- words -----

  /** A word that is no instruction traps. */
  lemma BadWordTraps(words: seq<u32>, s: State)
    requires s.status == Running && 0 <= s.pc < |words| && forall i: Instr :: Encode(i) != words[s.pc]
    ensures StepWord(words, s) == s.(dev := Safe(s.dev), status := Trapped(1))
  {
    hide Encode, Decode, PinsSafe, Safe, ExecAt;
    SafeIs(s.dev);
    if Decode(words[s.pc]).Ok? {
      EncodeDecode(Decode(words[s.pc]).value, words[s.pc]);
    }
  }

  /** So does a configuration this version does not support, which no line of assembler encodes to. */
  lemma BadConfigTraps(words: seq<u32>, s: State, p: Cfg6)
    requires s.status == Running && 0 <= s.pc < |words| && words[s.pc] == Encode(SetConfig(p)) && p >= 2
    ensures StepWord(words, s) == s.(dev := Safe(s.dev), status := Trapped(2))
  {
    hide Encode, Decode, PinsSafe, Safe;
    SafeIs(s.dev);
    EncodeDecode(SetConfig(p), words[s.pc]);
  }
}
