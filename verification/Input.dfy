/** Running on more input: what a finite input says about a longer one. */
module Input {
  import opened Prelude
  import opened Isa
  import opened Machine
  import opened Encoder
  import C = Crc8

  /** The same device with `more` behind its input. */
  function Longer(dev: Device, more: seq<byte>): Device { dev.(rx := dev.rx + more) }

  function Extended(s: State, more: seq<byte>): State { s.(dev := Longer(s.dev, more)) }

  /** An instruction that does not wait for input does the same with more of it. */
  lemma ExecLonger(i: Straight, regs: Regs, dev: Device, more: seq<byte>)
    requires Exec(i, regs, dev).status != Starved
    ensures var f, g := Exec(i, regs, dev), Exec(i, regs, Longer(dev, more));
            g == f.(dev := Longer(f.dev, more))
  {
    hide DataValue, C.Update, Pow2;
    if dev.rx != [] {
      assert (dev.rx + more)[0] == dev.rx[0] && (dev.rx + more)[1..] == dev.rx[1..] + more;
    }
  }

  /** One that waits for input has done nothing yet. */
  lemma ExecStarved(i: Straight, regs: Regs, dev: Device)
    requires Exec(i, regs, dev).status == Starved
    ensures Exec(i, regs, dev).dev == dev
  {
    hide DataValue, C.Update, Pow2;
  }

  lemma StepLonger(words: seq<u32>, s: State, more: seq<byte>)
    requires StepWord(words, s).status != Starved
    ensures StepWord(words, Extended(s, more)) == Extended(StepWord(words, s), more)
  {
    hide Exec, Decode;
    if s.status == Running && 0 <= s.pc < |words| {
      match Decode(words[s.pc])
      case Ok(i) =>
        if !IsBranch(i) {
          ExecLonger(i, s.regs, s.dev, more);
        }
      case Err(_) =>
    }
  }

  lemma StepStarved(words: seq<u32>, s: State)
    requires s.status != Starved && StepWord(words, s).status == Starved
    ensures StepWord(words, s).dev == s.dev
  {
    hide Exec, Decode;
    if 0 <= s.pc < |words| {
      match Decode(words[s.pc])
      case Ok(i) =>
        if !IsBranch(i) {
          ExecStarved(i, s.regs, s.dev);
        }
      case Err(_) =>
    }
  }

  /**
   * A run that has not used up its input is the same run on any longer input; one that has, is a
   * prefix of it: a longer input passes through the same device after some number of steps. So what
   * is proved for every finite input bounds the behaviour on an endless one.
   */
  lemma {:induction false} MoreInput(words: seq<u32>, n: nat, s: State, more: seq<byte>) returns (k: nat)
    requires s.status != Starved
    ensures k <= n
    ensures RunWords(words, k, Extended(s, more)).dev == Longer(RunWords(words, n, s).dev, more)
    ensures RunWords(words, n, s).status != Starved ==>
              k == n && RunWords(words, n, Extended(s, more)) == Extended(RunWords(words, n, s), more)
    decreases n
  {
    hide StepWord;
    k := 0;
    if n > 0 {
      var s' := StepWord(words, s);
      if s'.status == Starved {
        StepStarved(words, s);
        WordsStay(words, n - 1, s');
      } else {
        StepLonger(words, s, more);
        var j := MoreInput(words, n - 1, s', more);
        k := j + 1;
      }
    }
  }
}
