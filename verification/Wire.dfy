/** Little-endian words, frames and control messages. */
module Wire {
  import opened Prelude
  import opened Isa
  import Cobs
  import C = Crc8

  // ----- words -----

  function WordBytes(w: u32): (b: seq<byte>)
    ensures |b| == 4
  {
    [w % 0x100, w / 0x100 % 0x100, w / 0x1_0000 % 0x100, w / 0x100_0000]
  }

  function BytesWord(b: seq<byte>): u32
    requires |b| == 4
  {
    ((b[3] as int * 0x100 + b[2]) * 0x100 + b[1]) * 0x100 + b[0]
  }

  lemma WordSplit(w: u32)
    ensures BytesWord(WordBytes(w)) == w
  {
    var q1 := w / 0x100;
    var q2 := q1 / 0x100;
    assert w / 0x1_0000 == q2 && w / 0x100_0000 == q2 / 0x100;
  }

  lemma WordJoin(b: seq<byte>)
    requires |b| == 4
    ensures WordBytes(BytesWord(b)) == b
  {
    var q3: nat := b[3] as int * 0x100 + b[2];
    var q2: nat := q3 * 0x100 + b[1];
    var w: nat := q2 * 0x100 + b[0];
    Peel(0x100, q2, b[0]);
    Peel(0x100, q3, b[1]);
    Peel(0x100, b[3], b[2]);
    assert w / 0x1_0000 == q3 && w / 0x100_0000 == b[3];
  }

  /** Least significant byte first. */
  function LeBytes(words: seq<u32>): (b: seq<byte>)
    ensures |b| == 4 * |words|
  {
    if words == [] then [] else WordBytes(words[0]) + LeBytes(words[1..])
  }

  method WordsToLeBytes(words: seq<u32>) returns (out: seq<byte>)
    ensures out == LeBytes(words)
  {
    out := [];
    assert words[0..] == words;
    for i := 0 to |words|
      invariant out + LeBytes(words[i..]) == LeBytes(words)
    {
      assert words[i..][0] == words[i] && words[i..][1..] == words[i + 1..];
      Assoc(out, WordBytes(words[i]), LeBytes(words[i + 1..]));
      out := out + WordBytes(words[i]);
    }
    assert out + [] == out;
  }

  datatype WireError = BadCrc | BadCobs | UnknownOpcode(op: byte) | WrongOpcode(found: byte) | ShortFrame | BadPayloadLen

  /** The words of a buffer whose length is a multiple of four. */
  function Chunks(bytes: seq<byte>): (w: seq<u32>)
    requires |bytes| % 4 == 0
    ensures 4 * |w| == |bytes|
  {
    if bytes == [] then [] else [BytesWord(bytes[..4])] + Chunks(bytes[4..])
  }

  function LeWords(bytes: seq<byte>): Result<seq<u32>, WireError> {
    if |bytes| % 4 != 0 then Err(BadPayloadLen) else Ok(Chunks(bytes))
  }

  lemma {:induction false} WordsRoundTrip(words: seq<u32>)
    ensures LeWords(LeBytes(words)) == Ok(words)
  {
    hide WordBytes, BytesWord;
    if words != [] {
      WordSplit(words[0]);
      WordsRoundTrip(words[1..]);
      var b := LeBytes(words);
      assert b[..4] == WordBytes(words[0]) && b[4..] == LeBytes(words[1..]);
      assert words == [words[0]] + words[1..];
    }
  }

  lemma {:induction false} BytesRoundTrip(bytes: seq<byte>)
    requires |bytes| % 4 == 0
    ensures LeBytes(Chunks(bytes)) == bytes
  {
    hide WordBytes, BytesWord;
    if bytes != [] {
      WordJoin(bytes[..4]);
      BytesRoundTrip(bytes[4..]);
      assert Chunks(bytes)[0] == BytesWord(bytes[..4]) && Chunks(bytes)[1..] == Chunks(bytes[4..]);
      assert bytes == bytes[..4] + bytes[4..];
    }
  }

  /** Byte `i` of the image: byte `i % 4` of word `i / 4`, counted from the least significant. */
  lemma {:induction false} LeByteAt(words: seq<u32>, i: nat)
    requires i < 4 * |words|
    ensures LeBytes(words)[i]
         == (match i % 4
             case 0 => words[i / 4] % 256
             case 1 => words[i / 4] / 256 % 256
             case 2 => words[i / 4] / 65536 % 256
             case _ => words[i / 4] / 16777216)
    decreases |words|
  {
    hide WordBytes;
    if i < 4 {
      WordByteAt(words[0]);
    } else {
      LeByteAt(words[1..], i - 4);
    }
  }

  lemma WordByteAt(w: u32)
    ensures WordBytes(w) == [w % 256, w / 256 % 256, w / 65536 % 256, w / 16777216]
  {
  }

  // ----- programs -----

  function DecodeAll(words: seq<u32>): Result<seq<Instr>, DecodeError> {
    if words == [] then Ok([]) else
    var i :- Decode(words[0]);
    var rest :- DecodeAll(words[1..]);
    Ok([i] + rest)
  }

  method ProgramToLeBytes(program: seq<Instr>) returns (out: seq<byte>)
    ensures out == LeBytes(EncodeAll(program))
  {
    hide Encode, WordBytes;
    out := [];
    assert program[0..] == program;
    for i := 0 to |program|
      invariant out + LeBytes(EncodeAll(program[i..])) == LeBytes(EncodeAll(program))
    {
      assert program[i..][0] == program[i] && program[i..][1..] == program[i + 1..];
      ghost var rest := EncodeAll(program[i + 1..]);
      assert EncodeAll(program[i..])[1..] == rest;
      Assoc(out, WordBytes(Encode(program[i])), LeBytes(rest));
      out := out + WordBytes(Encode(program[i]));
    }
    assert out + [] == out;
  }

  lemma {:induction false} ProgramDecodes(program: seq<Instr>, words: seq<u32>)
    ensures EncodeAll(program) == words <==> DecodeAll(words) == Ok(program)
  {
    hide Encode, Decode;
    if program == [] || words == [] {
      if words != [] && Decode(words[0]).Ok? && DecodeAll(words[1..]).Ok? {
        assert DecodeAll(words).value != [];
      }
    } else {
      EncodeDecode(program[0], words[0]);
      ProgramDecodes(program[1..], words[1..]);
      assert words == [words[0]] + words[1..] && program == [program[0]] + program[1..];
      assert EncodeAll(program)[0] == Encode(program[0]) && EncodeAll(program)[1..] == EncodeAll(program[1..]);
      if DecodeAll(words).Ok? {
        assert DecodeAll(words).value[0] == Decode(words[0]).value;
        assert DecodeAll(words).value[1..] == DecodeAll(words[1..]).value;
      }
    }
  }

  /** A program and its little-endian image determine each other. */
  lemma ProgramImage(program: seq<Instr>, image: seq<byte>)
    ensures LeBytes(EncodeAll(program)) == image
       <==> LeWords(image).Ok? && DecodeAll(LeWords(image).value) == Ok(program)
  {
    hide LeBytes, Chunks, EncodeAll, DecodeAll;
    WordsRoundTrip(EncodeAll(program));
    ProgramDecodes(program, EncodeAll(program));
    if LeWords(image).Ok? {
      BytesRoundTrip(image);
      ProgramDecodes(program, LeWords(image).value);
    }
  }

  // ----- frames -----

  const DELIMITER: byte := 0

  function FrameEncode(logical: seq<byte>): seq<byte> {
    Cobs.Encode(logical + [C.Crc8(logical)]) + [DELIMITER]
  }

  function FrameDecode(wire: seq<byte>): Result<seq<byte>, WireError> {
    if wire == [] || wire[|wire| - 1] != DELIMITER then Err(BadCobs) else
    match Cobs.Decode(wire[..|wire| - 1])
    case Err(_) => Err(BadCobs)
    case Ok(decoded) =>
      if |decoded| <= 1 then Err(ShortFrame) else
      var logical, crc := decoded[..|decoded| - 1], decoded[|decoded| - 1];
      if C.Crc8(logical) != crc then Err(BadCrc) else Ok(logical)
  }

  method FrameEncodeBuffer(logical: seq<byte>) returns (wire: seq<byte>)
    ensures wire == FrameEncode(logical)
  {
    var withCrc := logical;
    withCrc := withCrc + [C.Crc8(logical)];
    wire := Cobs.EncodeLoop(withCrc);
    wire := wire + [DELIMITER];
  }

  method FrameDecodeBuffer(wire: seq<byte>) returns (r: Result<seq<byte>, WireError>)
    ensures r == FrameDecode(wire)
  {
    hide Cobs.Groups, C.Crc8;
    if wire == [] || wire[|wire| - 1] != DELIMITER { return Err(BadCobs); }
    var decoded := Cobs.DecodeLoop(wire[..|wire| - 1]);
    if decoded.Err? { return Err(BadCobs); }
    var n := |decoded.value|;
    if n <= 1 { return Err(ShortFrame); }
    if C.Crc8(decoded.value[..n - 1]) != decoded.value[n - 1] { return Err(BadCrc); }
    r := Ok(decoded.value[..n - 1]);
  }

  /** A frame carries every logical buffer that has at least its opcode. */
  lemma FrameRoundTrip(logical: seq<byte>)
    ensures FrameDecode(FrameEncode(logical)) == if logical == [] then Err(ShortFrame) else Ok(logical)
  {
    hide Cobs.Encode, Cobs.Groups, C.Crc8;
    var body := logical + [C.Crc8(logical)];
    Cobs.RoundTrip(body);
    var wire := FrameEncode(logical);
    assert wire[..|wire| - 1] == Cobs.Encode(body);
    assert body[..|body| - 1] == logical;
  }

  /**
   * Exactly which wires decode to `logical`: its frame and, if the last run of nonzero bytes of the
   * body, check byte included, is a positive multiple of 254 long, the same with a 0x01 before the
   * delimiter.
   */
  lemma FrameDecodeIff(wire: seq<byte>, logical: seq<byte>)
    ensures var body := logical + [C.Crc8(logical)];
            FrameDecode(wire) == Ok(logical) <==>
              && logical != []
              && (|| wire == FrameEncode(logical)
                  || (&& wire == Cobs.Encode(body) + [1, DELIMITER]
                      && Cobs.FinalRun(body) > 0 && Cobs.FinalRun(body) % 254 == 0))
  {
    hide Cobs.Encode, Cobs.Decode, Cobs.FinalRun, C.Crc8;
    var body := logical + [C.Crc8(logical)];
    assert body[..|body| - 1] == logical;
    if wire != [] && wire[|wire| - 1] == DELIMITER {
      var s := wire[..|wire| - 1];
      Cobs.DecodeIff(s, body);
      assert wire == s + [DELIMITER];
      SameFront(s, Cobs.Encode(body));
      assert Cobs.Encode(body) + [1, DELIMITER] == Cobs.Encode(body) + [1] + [DELIMITER];
      SameFront(s, Cobs.Encode(body) + [1]);
      if FrameDecode(wire) == Ok(logical) {
        var decoded := Cobs.Decode(s).value;
        assert decoded == decoded[..|decoded| - 1] + [decoded[|decoded| - 1]];
      }
    } else {
      assert (Cobs.Encode(body) + [DELIMITER])[|Cobs.Encode(body)|] == DELIMITER;
      assert (Cobs.Encode(body) + [1, DELIMITER])[|Cobs.Encode(body)| + 1] == DELIMITER;
    }
  }

  lemma SameFront(a: seq<byte>, b: seq<byte>)
    ensures a + [DELIMITER] == b + [DELIMITER] <==> a == b
  {
    if a + [DELIMITER] == b + [DELIMITER] {
      assert a == (a + [DELIMITER])[..|a|] == (b + [DELIMITER])[..|b|];
    }
  }

  /** A frame ends at its one zero byte, and has a body. */
  lemma FrameShape(logical: seq<byte>)
    ensures var wire := FrameEncode(logical);
            && |wire| >= 2 && wire[|wire| - 1] == DELIMITER
            && Cobs.NoZero(wire[..|wire| - 1])
  {
    hide Cobs.Encode, C.Crc8;
    Cobs.Shape(logical + [C.Crc8(logical)]);
    var wire := FrameEncode(logical);
    assert wire[..|wire| - 1] == Cobs.Encode(logical + [C.Crc8(logical)]);
  }

  /** One wrong byte is caught by the check byte, wherever it falls. */
  lemma CheckFails(logical: seq<byte>, q: nat, v: byte)
    requires q <= |logical|
    ensures var body := (logical + [C.Crc8(logical)])[q := v];
            v != (logical + [C.Crc8(logical)])[q] ==> C.Crc8(body[..|logical|]) != body[|logical|]
  {
    hide C.Crc8;
    var body := (logical + [C.Crc8(logical)])[q := v];
    if q < |logical| {
      assert body[..|logical|] == logical[q := v];
      C.OneByteChange(logical, q, v);
    } else {
      assert body[..|logical|] == logical;
    }
  }

  /** Changing any one byte of an encoded frame that is not a group code makes decoding fail. */
  lemma FrameChange(logical: seq<byte>, p: nat, v: byte)
    requires logical != []
    requires p < |FrameEncode(logical)| - 1
    requires Cobs.DataAt(FrameEncode(logical)[..|FrameEncode(logical)| - 1], p) && v != FrameEncode(logical)[p]
    ensures FrameDecode(FrameEncode(logical)[p := v]).Err?
  {
    hide Cobs.Encode, Cobs.Groups, Cobs.DataAt, C.Crc8;
    var body := logical + [C.Crc8(logical)];
    var wire := FrameEncode(logical);
    var s := wire[..|wire| - 1];
    assert s == Cobs.Encode(body);
    Cobs.RoundTrip(body);
    var wire' := wire[p := v];
    assert wire'[..|wire'| - 1] == s[p := v];
    var q := Cobs.DataChange(s, body, p, v);
    if v != 0 {
      CheckFails(logical, q, v);
      var b := body[q := v];
      assert b[..|b| - 1] == b[..|logical|];
    }
  }

  // ----- control messages and results -----

  const OP_LOAD_PROGRAM: byte := 0x01
  const OP_TRIGGER: byte := 0x02
  const OP_TRACE_DRAIN: byte := 0x81

  datatype ControlMsg = LoadProgram(words: seq<u32>) | Trigger

  function Logical(msg: ControlMsg): (b: seq<byte>)
    ensures b != []
  {
    match msg
    case Trigger => [OP_TRIGGER]
    case LoadProgram(words) => [OP_LOAD_PROGRAM] + LeBytes(words)
  }

  function EncodeControl(msg: ControlMsg): seq<byte> { FrameEncode(Logical(msg)) }

  method EncodeControlBuffer(msg: ControlMsg) returns (wire: seq<byte>)
    ensures wire == EncodeControl(msg)
  {
    var logical: seq<byte>;
    match msg {
      case Trigger => logical := [OP_TRIGGER];
      case LoadProgram(words) =>
        logical := [OP_LOAD_PROGRAM];
        var payload := WordsToLeBytes(words);
        logical := logical + payload;
    }
    wire := FrameEncodeBuffer(logical);
  }

  function DecodeControl(wire: seq<byte>): Result<ControlMsg, WireError> {
    var logical :- FrameDecode(wire);
    if logical[0] == OP_LOAD_PROGRAM then
      var words :- LeWords(logical[1..]);
      Ok(LoadProgram(words))
    else if logical[0] == OP_TRIGGER then
      if |logical| != 1 then Err(BadPayloadLen) else Ok(Trigger)
    else Err(UnknownOpcode(logical[0]))
  }

  function DecodeResult(wire: seq<byte>): Result<seq<u32>, WireError> {
    var logical :- FrameDecode(wire);
    if logical[0] != OP_TRACE_DRAIN then Err(WrongOpcode(logical[0])) else LeWords(logical[1..])
  }

  /** Every control message survives the wire, and so does every drained trace. */
  lemma ControlRoundTrip(msg: ControlMsg, trace: seq<u32>)
    ensures DecodeControl(EncodeControl(msg)) == Ok(msg)
    ensures DecodeResult(FrameEncode([OP_TRACE_DRAIN] + LeBytes(trace))) == Ok(trace)
  {
    hide FrameEncode, FrameDecode, LeBytes, Chunks;
    FrameRoundTrip(Logical(msg));
    FrameRoundTrip([OP_TRACE_DRAIN] + LeBytes(trace));
    assert ([OP_TRACE_DRAIN] + LeBytes(trace))[1..] == LeBytes(trace);
    WordsRoundTrip(trace);
    if msg.LoadProgram? {
      assert Logical(msg)[1..] == LeBytes(msg.words);
      WordsRoundTrip(msg.words);
    }
  }

  // ----- the messages, byte by byte -----

  /** What the engine sees when it is triggered: one group of two bytes, opcode and CRC. */
  lemma TriggerFrame()
    ensures EncodeControl(Trigger) == [0x03, 0x02, 0x0E, 0x00]
  {
    hide Cobs.Encode, C.Crc8;
    C.TriggerCrc();
    assert [OP_TRIGGER] + [C.Crc8([OP_TRIGGER])] == [2, 14];
    assert Cobs.NoZero([2, 14]);
    Cobs.EncodeLast([2, 14]);
    assert Cobs.Group([2, 14]) == [3, 2, 14];
  }

  /** The logical bytes of a program load: opcode 1, then the words, least significant byte first. */
  lemma LoadFrame(words: seq<u32>)
    ensures FrameDecode(EncodeControl(LoadProgram(words))) == Ok([0x01] + LeBytes(words))
  {
    hide FrameEncode, FrameDecode, LeBytes;
    FrameRoundTrip([OP_LOAD_PROGRAM] + LeBytes(words));
  }

  /** Exactly which wires are control messages: a trigger is 2 alone, a load is 1 and whole words. */
  lemma DecodeControlIff(wire: seq<byte>, msg: ControlMsg)
    ensures DecodeControl(wire) == Ok(msg)
       <==> FrameDecode(wire) == Ok(match msg case Trigger => [0x02] case LoadProgram(words) => [0x01] + LeBytes(words))
  {
    hide FrameDecode, LeBytes, Chunks;
    match FrameDecode(wire)
    case Err(_) =>
    case Ok(logical) =>
      FrameNotEmpty(wire);
      match msg
      case Trigger =>
        if logical[0] == 0x02 && |logical| == 1 {
          assert logical == [0x02];
        }
      case LoadProgram(words) => LoadPayload(logical, 0x01, words);
  }

  /** And which are drained traces. */
  lemma DecodeResultIff(wire: seq<byte>, trace: seq<u32>)
    ensures DecodeResult(wire) == Ok(trace) <==> FrameDecode(wire) == Ok([0x81] + LeBytes(trace))
  {
    hide FrameDecode, LeBytes, Chunks;
    if FrameDecode(wire).Ok? {
      FrameNotEmpty(wire);
      LoadPayload(FrameDecode(wire).value, 0x81, trace);
    }
  }

  /**
   * Why a wire is no frame: it is not groups and a zero, or what they hold is shorter than an opcode
   * and its CRC, or the CRC of all of it is not zero.
   */
  lemma FrameErrors(wire: seq<byte>)
    ensures FrameDecode(wire) == Err(BadCobs)
       <==> wire == [] || wire[|wire| - 1] != 0 || Cobs.Decode(wire[..|wire| - 1]).Err?
    ensures wire != [] && wire[|wire| - 1] == 0 && Cobs.Decode(wire[..|wire| - 1]).Ok? ==>
              var data := Cobs.Decode(wire[..|wire| - 1]).value;
              && (FrameDecode(wire) == Err(ShortFrame) <==> |data| < 2)
              && (FrameDecode(wire) == Err(BadCrc) <==> |data| >= 2 && C.Crc8(data) != 0)
  {
    hide Cobs.Decode, C.Crc8;
    if wire != [] && wire[|wire| - 1] == 0 && Cobs.Decode(wire[..|wire| - 1]).Ok? {
      var data := Cobs.Decode(wire[..|wire| - 1]).value;
      if |data| >= 2 {
        C.Residue(data[..|data| - 1], data[|data| - 1]);
        assert data == data[..|data| - 1] + [data[|data| - 1]];
      }
    }
  }

  /** Why the logical bytes of a frame are no message, and no drained trace. */
  lemma MessageErrors(wire: seq<byte>, logical: seq<byte>)
    requires FrameDecode(wire) == Ok(logical)
    ensures logical != []
    ensures DecodeControl(wire) == Err(UnknownOpcode(logical[0])) <==> logical[0] != 1 && logical[0] != 2
    ensures DecodeControl(wire) == Err(BadPayloadLen)
       <==> (logical[0] == 2 && |logical| > 1) || (logical[0] == 1 && |logical| % 4 != 1)
    ensures DecodeResult(wire) == Err(WrongOpcode(logical[0])) <==> logical[0] != 0x81
    ensures DecodeResult(wire) == Err(BadPayloadLen) <==> logical[0] == 0x81 && |logical| % 4 != 1
  {
    hide FrameDecode, Chunks;
    FrameNotEmpty(wire);
  }

  lemma FrameNotEmpty(wire: seq<byte>)
    requires FrameDecode(wire).Ok?
    ensures FrameDecode(wire).value != []
  {
    hide Cobs.Decode, C.Crc8;
  }

  /** The rest of a buffer is a payload of words exactly when it is their image. */
  lemma LoadPayload(logical: seq<byte>, op: byte, words: seq<u32>)
    requires logical != []
    ensures logical == [op] + LeBytes(words) <==> logical[0] == op && LeWords(logical[1..]) == Ok(words)
  {
    hide LeBytes, Chunks;
    WordsRoundTrip(words);
    assert ([op] + LeBytes(words))[1..] == LeBytes(words);
    if LeWords(logical[1..]) == Ok(words) {
      BytesRoundTrip(logical[1..]);
      assert logical == [logical[0]] + logical[1..];
    }
  }
}

/** Cutting a byte stream into frames. */
module Stream {
  import opened Prelude
  import opened Wire
  import Cobs

  /** What the accumulator holds, and the frames it has delivered. */
  datatype Reading = Reading(acc: seq<byte>, frames: seq<seq<byte>>)

  /** One byte: a delimiter completes the frame under way, if there is one. */
  function Feed(r: Reading, b: byte): Reading {
    if b != DELIMITER then r.(acc := r.acc + [b])
    else if r.acc == [] then r
    else Reading([], r.frames + [r.acc + [b]])
  }

  function FeedAll(r: Reading, bytes: seq<byte>): Reading
    decreases |bytes|
  {
    if bytes == [] then r else FeedAll(Feed(r, bytes[0]), bytes[1..])
  }

  class Accumulator {
    var acc: seq<byte>
    ghost var frames: seq<seq<byte>>

    ghost function Contents(): Reading
      reads this
    {
      Reading(acc, frames)
    }

    constructor ()
      ensures Contents() == Reading([], [])
    {
      acc, frames := [], [];
    }

    /** Returns the frame that `b` completes, if any. */
    method Push(b: byte) returns (frame: Option<seq<byte>>)
      modifies this
      ensures Contents() == Feed(old(Contents()), b)
      ensures frames == old(frames) + (if frame.Some? then [frame.value] else [])
    {
      if b == DELIMITER {
        if acc == [] {
          frame := None;
        } else {
          acc := acc + [b];
          frame := Some(acc);
          frames := frames + [acc];
          acc := [];
        }
      } else {
        acc := acc + [b];
        frame := None;
      }
    }
  }

  lemma {:induction false} FeedAppend(r: Reading, a: seq<byte>, b: seq<byte>)
    ensures FeedAll(r, a + b) == FeedAll(FeedAll(r, a), b)
    decreases |a|
  {
    hide Feed;
    if a == [] {
      assert a + b == b;
    } else {
      assert (a + b)[1..] == a[1..] + b;
      FeedAppend(Feed(r, a[0]), a[1..], b);
    }
  }

  lemma {:induction false} FeedBody(r: Reading, body: seq<byte>)
    requires Cobs.NoZero(body)
    ensures FeedAll(r, body) == r.(acc := r.acc + body)
    decreases |body|
  {
    if body == [] {
      assert r.acc + body == r.acc;
    } else {
      FeedBody(Feed(r, body[0]), body[1..]);
      assert body == [body[0]] + body[1..];
      Assoc(r.acc, [body[0]], body[1..]);
    }
  }

  function Zeros(n: nat): (z: seq<byte>)
    ensures |z| == n
  {
    if n == 0 then [] else [DELIMITER] + Zeros(n - 1)
  }

  /** Delimiters between frames are skipped. */
  lemma {:induction false} FeedZeros(r: Reading, n: nat)
    requires r.acc == []
    ensures FeedAll(r, Zeros(n)) == r
    decreases n
  {
    if n > 0 {
      assert Zeros(n)[1..] == Zeros(n - 1);
      FeedZeros(r, n - 1);
    }
  }

  /** A frame with any number of delimiters before it. */
  lemma FeedFrame(r: Reading, gap: nat, logical: seq<byte>)
    requires r.acc == []
    ensures FeedAll(r, Zeros(gap) + FrameEncode(logical)) == Reading([], r.frames + [FrameEncode(logical)])
  {
    hide FrameEncode, FeedAll;
    var wire := FrameEncode(logical);
    FrameShape(logical);
    var body := wire[..|wire| - 1];
    FeedAppend(r, Zeros(gap), wire);
    FeedZeros(r, gap);
    assert wire == body + [DELIMITER];
    FeedAppend(r, body, [DELIMITER]);
    FeedBody(r, body);
    assert r.acc + body == body;
    FeedOne(r.(acc := body), DELIMITER);
  }

  lemma FeedOne(r: Reading, b: byte)
    ensures FeedAll(r, [b]) == Feed(r, b)
  {
    assert [b][1..] == [];
  }

  datatype Sent = Sent(gap: nat, msg: ControlMsg)

  /** The bytes of the messages, each after any number of extra delimiters. */
  function Transmit(sent: seq<Sent>): seq<byte> {
    if sent == [] then [] else Zeros(sent[0].gap) + EncodeControl(sent[0].msg) + Transmit(sent[1..])
  }

  function FramesOf(sent: seq<Sent>): seq<seq<byte>> {
    seq(|sent|, k requires 0 <= k < |sent| => EncodeControl(sent[k].msg))
  }

  lemma FramesStep(sent: seq<Sent>)
    requires sent != []
    ensures FramesOf(sent) == [EncodeControl(sent[0].msg)] + FramesOf(sent[1..])
  {
    hide EncodeControl;
  }

  lemma {:induction false} FeedSent(r: Reading, sent: seq<Sent>)
    requires r.acc == []
    ensures FeedAll(r, Transmit(sent)) == Reading([], r.frames + FramesOf(sent))
    decreases |sent|
  {
    hide FeedAll, Zeros, EncodeControl;
    if sent == [] {
      assert r.frames + FramesOf(sent) == r.frames;
      FeedNothing(r);
    } else {
      var first := Zeros(sent[0].gap) + EncodeControl(sent[0].msg);
      FeedAppend(r, first, Transmit(sent[1..]));
      OneMessage(r, sent[0]);
      var r1 := Reading([], r.frames + [EncodeControl(sent[0].msg)]);
      FeedSent(r1, sent[1..]);
      FramesStep(sent);
      Assoc(r.frames, [EncodeControl(sent[0].msg)], FramesOf(sent[1..]));
    }
  }

  lemma OneMessage(r: Reading, s: Sent)
    requires r.acc == []
    ensures FeedAll(r, Zeros(s.gap) + EncodeControl(s.msg)) == Reading([], r.frames + [EncodeControl(s.msg)])
  {
    hide FeedAll, Zeros, FrameEncode, Logical;
    FeedFrame(r, s.gap, Logical(s.msg));
  }

  lemma FeedNothing(r: Reading)
    ensures FeedAll(r, []) == r
  {
  }

  /** After a delimiter the accumulator is empty, whatever came before. */
  lemma Resync(r: Reading, garbage: seq<byte>)
    ensures FeedAll(r, garbage + [DELIMITER]).acc == []
  {
    FeedAppend(r, garbage, [DELIMITER]);
    FeedOne(FeedAll(r, garbage), DELIMITER);
  }

  /**
   * After any garbage that ends in a delimiter, exactly the frames that were sent are delivered, in
   * order, and each decodes to the message it was sent for.
   */
  lemma Recovery(r: Reading, garbage: seq<byte>, sent: seq<Sent>)
    ensures var synced := FeedAll(r, garbage + [DELIMITER]);
            var end := FeedAll(r, garbage + [DELIMITER] + Transmit(sent));
            && end == Reading([], synced.frames + FramesOf(sent))
            && forall k :: 0 <= k < |sent| ==> DecodeControl(FramesOf(sent)[k]) == Ok(sent[k].msg)
  {
    hide FeedAll, EncodeControl, DecodeControl, Transmit;
    FeedAppend(r, garbage + [DELIMITER], Transmit(sent));
    Resync(r, garbage);
    FeedSent(FeedAll(r, garbage + [DELIMITER]), sent);
    forall k | 0 <= k < |sent| ensures DecodeControl(FramesOf(sent)[k]) == Ok(sent[k].msg) {
      ControlRoundTrip(sent[k].msg, []);
    }
  }
}
