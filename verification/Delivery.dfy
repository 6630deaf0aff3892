/** The whole path: from source to what the engine runs after the words have crossed the wire. */
module Delivery {
  import opened Prelude
  import opened Isa
  import opened Machine
  import opened Ast
  import opened Interp
  import opened Driver
  import opened Program
  import opened CompiledText
  import opened Wire
  import opened Stream

  /** The words of a module whose text assembles. */
  function WordsOf(m: Module): seq<u32>
    requires Lower(m).Ok? && AssembleText(LowerText(m).value).Some?
  {
    EncodeAll(AssembleText(LowerText(m).value).value)
  }

  /**
   * Send the words of an accepted module as a program load, among any other messages and after any
   * garbage that ends in a delimiter. In its place exactly one frame is delivered, which decodes to
   * a program load; and the words in it, run on any input, come to a stop having done on the bus
   * what the interpreter says the source does, with the same status.
   */
  lemma DeliveredRuns(m: Module, rx: seq<byte>, r: Reading, garbage: seq<byte>, before: seq<Sent>, gap: nat,
                      after: seq<Sent>) returns (n: nat)
    requires Lower(m).Ok? && RawStraight(m) && AssembleText(LowerText(m).value).Some?
    ensures var sent := before + [Sent(gap, LoadProgram(WordsOf(m)))] + after;
            var already := FeedAll(r, garbage + [DELIMITER]).frames;
            var frames := FeedAll(r, garbage + [DELIMITER] + Transmit(sent)).frames;
            && |frames| == |already| + |sent| && already <= frames
            && var got := DecodeControl(frames[|already| + |before|]);
               && got.Ok? && got.value.LoadProgram?
               && var s := RunWords(got.value.words, n, Initial(rx));
                  && RunSource(m, rx) == Stop(s.dev, s.status)
                  && (s.status.Halted? || s.status.Trapped? || s.status.Starved?)
  {
    hide Lower, LowerText, AssembleText, EncodeAll, RunSource, RawStraight, RunWords, FeedAll, Transmit, DecodeControl;
    var load := Sent(gap, LoadProgram(WordsOf(m)));
    var sent := before + [load] + after;
    assert sent[|before|] == load;
    Recovery(r, garbage, sent);
    n := EndToEnd(m, rx);
  }
}
