/** Consistent overhead byte stuffing. */
module Cobs {
  import opened Prelude

  datatype CobsError = Empty | TruncatedGroup | InteriorZero

  type Decoded = Result<seq<byte>, CobsError>

  const FULL := 254

  predicate NoZero(s: seq<byte>) { forall i :: 0 <= i < |s| ==> s[i] != 0 }

  // ----- encoding -----

  /** A group: its length plus one, then its bytes. */
  function Group(g: seq<byte>): seq<byte>
    requires |g| <= FULL
  {
    [|g| + 1] + g
  }

  /** What is still to be written when `group` is under way and `rest` has not been read. */
  function Pending(group: seq<byte>, rest: seq<byte>): seq<byte>
    requires |group| < FULL
    decreases |rest|
  {
    if rest == [] then [] else
    var b, last := rest[0], |rest| == 1;
    if b == 0 then Group(group) + (if last then [1] else Pending([], rest[1..]))
    else if |group| + 1 == FULL then Group(group + [b]) + Pending([], rest[1..])
    else if last then Group(group + [b])
    else Pending(group + [b], rest[1..])
  }

  function Encode(data: seq<byte>): seq<byte> { if data == [] then [1] else Pending([], data) }

  /** What one byte makes the encoder write, and the group it leaves under way. */
  function Flushed(group: seq<byte>, b: byte, last: bool): seq<byte>
    requires |group| < FULL
  {
    if b == 0 then Group(group) + (if last then [1] else [])
    else if |group| + 1 == FULL || last then Group(group + [b])
    else []
  }

  function Kept(group: seq<byte>, b: byte, last: bool): (g: seq<byte>)
    requires |group| < FULL
    ensures |g| < FULL
  {
    if b == 0 || |group| + 1 == FULL || last then [] else group + [b]
  }

  lemma PendingStep(group: seq<byte>, rest: seq<byte>)
    requires |group| < FULL && rest != []
    ensures var b, last := rest[0], |rest| == 1;
            Pending(group, rest) == Flushed(group, b, last) + Pending(Kept(group, b, last), rest[1..])
  {
  }

  method EncodeLoop(data: seq<byte>) returns (out: seq<byte>)
    ensures out == Encode(data)
  {
    hide Pending, Group;
    out := [];
    var group: seq<byte> := [];
    var n := |data|;
    assert data[0..] == data && [] + Pending([], data) == Pending([], data);
    for i := 0 to n
      invariant |group| < FULL
      invariant out + Pending(group, data[i..]) == Pending([], data)
    {
      var b, last := data[i], i + 1 == n;
      assert data[i..][0] == b && data[i..][1..] == data[i + 1..];
      PendingStep(group, data[i..]);
      Assoc(out, Flushed(group, b, last), Pending(Kept(group, b, last), data[i + 1..]));
      if b == 0 {
        if last {
          Assoc(out, Group(group), [1]);
        } else {
          assert Group(group) + [] == Group(group);
        }
        out := out + Group(group);
        group := [];
        if last {
          out := out + [1];
        }
      } else {
        group := group + [b];
        if |group| == FULL || last {
          out := out + Group(group);
          group := [];
        } else {
          assert out + [] == out;
        }
      }
    }
    NothingPending(group, data[n..]);
    NothingPending([], []);
    assert out + [] == out;
    if n == 0 {
      out := out + [1];
    }
  }

  lemma NothingPending(group: seq<byte>, rest: seq<byte>)
    requires |group| < FULL && rest == []
    ensures Pending(group, rest) == []
  {
  }

  // ----- decoding -----

  /** The bytes of a buffer that is read group by group. */
  function Groups(s: seq<byte>): Decoded
    requires s != []
    decreases |s|
  {
    var code := s[0];
    if code == 0 then Err(InteriorZero)
    else if code > |s| then Err(TruncatedGroup)
    else if !NoZero(s[1..code]) then Err(InteriorZero)
    else
      var rest := s[code..];
      if rest == [] then Ok(s[1..code]) else
      var more :- Groups(rest);
      Ok(s[1..code] + (if code != 0xFF then [0] else []) + more)
  }

  function Decode(s: seq<byte>): Decoded { if s == [] then Err(Empty) else Groups(s) }

  /** `out` followed by what the rest of the buffer gives. */
  function Onto(out: seq<byte>, rest: Decoded): Decoded {
    match rest
    case Ok(more) => Ok(out + more)
    case Err(e) => Err(e)
  }

  method CopyGroup(data: seq<byte>, from: nat, count: nat) returns (ok: bool)
    requires from + count <= |data|
    ensures ok <==> NoZero(data[from..from + count])
  {
    for k := 0 to count
      invariant NoZero(data[from..from + k])
    {
      assert data[from..from + count][k] == data[from + k];
      if data[from + k] == 0 { return false; }
      assert data[from..from + k + 1] == data[from..from + k] + [data[from + k]];
    }
    ok := true;
  }

  /** How reading a buffer starts. */
  lemma FirstGroup(s: seq<byte>)
    requires s != []
    ensures s[0] == 0 ==> Groups(s) == Err(InteriorZero)
    ensures s[0] > |s| ==> Groups(s) == Err(TruncatedGroup)
    ensures 0 < s[0] <= |s| && !NoZero(s[1..s[0]]) ==> Groups(s) == Err(InteriorZero)
  {
  }

  lemma LastGroup(s: seq<byte>, code: nat)
    requires s != [] && s[0] == code == |s| && NoZero(s[1..code])
    ensures Groups(s) == Ok(s[1..code])
  {
  }

  method DecodeLoop(data: seq<byte>) returns (r: Decoded)
    ensures r == Decode(data)
  {
    hide Groups;
    if data == [] { return Err(Empty); }
    var out: seq<byte> := [];
    var i := 0;
    assert data[0..] == data;
    OntoNothing(Groups(data));
    while i < |data|
      invariant 0 <= i <= |data|
      invariant (if i == |data| then Ok(out) else Onto(out, Groups(data[i..]))) == Groups(data)
      decreases |data| - i
    {
      ghost var rest := data[i..];
      var code: nat := data[i];
      FirstGroup(rest);
      if code == 0 { return Err(InteriorZero); }
      if i + code > |data| { return Err(TruncatedGroup); }
      SliceOfSuffix(data, i, 1, code);
      var ok := CopyGroup(data, i + 1, code - 1);
      if !ok { return Err(InteriorZero); }
      ghost var out0 := out;
      out := out + data[i + 1..i + code];
      i := i + code;
      if i < |data| {
        OntoGroup(out0, rest, code);
        Assoc(out0, rest[1..code], if code != 0xFF then [0] else []);
        if code != 0xFF {
          out := out + [0];
        } else {
          assert out + [] == out;
        }
      } else {
        LastGroup(rest, code);
      }
    }
    r := Ok(out);
  }

  lemma OntoNothing(r: Decoded)
    ensures Onto([], r) == r
  {
    if r.Ok? {
      assert [] + r.value == r.value;
    }
  }

  lemma OntoGroup(out: seq<byte>, s: seq<byte>, code: nat)
    requires s != [] && s[0] == code && 0 < code < |s| && NoZero(s[1..code])
    ensures Onto(out, Groups(s)) == Onto(out + (s[1..code] + (if code != 0xFF then [0] else [])), Groups(s[code..]))
  {
    if Groups(s[code..]).Ok? {
      Assoc(out, s[1..code] + (if code != 0xFF then [0] else []), Groups(s[code..]).value);
    }
  }

  // ----- what decoding undoes -----

  /** Reading a group that more input follows. */
  lemma GroupThen(g: seq<byte>, tail: seq<byte>)
    requires |g| <= FULL && NoZero(g)
    ensures Groups(Group(g) + tail)
         == if tail == [] then Ok(g) else Onto(g + (if |g| == FULL then [] else [0]), Groups(tail))
  {
    var s := Group(g) + tail;
    assert s[1..|g| + 1] == g && s[|g| + 1..] == tail;
  }

  lemma {:induction false} PendingDecodes(group: seq<byte>, rest: seq<byte>)
    requires |group| < FULL && NoZero(group) && rest != []
    ensures Pending(group, rest) != [] && Groups(Pending(group, rest)) == Ok(group + rest)
    decreases |rest|
  {
    var b, tail := rest[0], rest[1..];
    assert rest == [b] + tail;
    Assoc(group, [b], tail);
    if tail != [] {
      if b == 0 {
        PendingDecodes([], tail);
        assert [] + tail == tail;
        GroupThen(group, Pending([], tail));
      } else if |group| + 1 == FULL {
        PendingDecodes([], tail);
        assert [] + tail == tail;
        GroupThen(group + [b], Pending([], tail));
        assert group + [b] + [] == group + [b];
      } else {
        PendingDecodes(group + [b], tail);
      }
    } else if b == 0 {
      GroupThen(group, [1]);
      assert Groups([1]) == Ok([]) by { GroupThen([], []); assert Group([]) + [] == [1]; }
      assert group + [0] + [] == group + rest;
    } else {
      GroupThen(group + [b], []);
      assert Group(group + [b]) + [] == Group(group + [b]);
      assert Pending([], tail) == [] && group + rest == group + [b];
    }
  }

  /** Decoding undoes encoding. */
  lemma RoundTrip(data: seq<byte>)
    ensures Decode(Encode(data)) == Ok(data)
  {
    hide Pending;
    if data == [] {
      GroupThen([], []);
      assert Group([]) + [] == [1];
    } else {
      PendingDecodes([], data);
      assert [] + data == data;
    }
  }

  // ----- what an encoding looks like -----

  lemma {:induction false} PendingShape(group: seq<byte>, rest: seq<byte>)
    requires |group| < FULL && NoZero(group) && rest != []
    ensures NoZero(Pending(group, rest))
    ensures |group| + |rest| + 1 <= |Pending(group, rest)| <= |group| + |rest| + 1 + (|group| + |rest|) / FULL
    decreases |rest|
  {
    var b, tail := rest[0], rest[1..];
    if tail != [] {
      if b == 0 || |group| + 1 == FULL {
        PendingShape([], tail);
      } else {
        PendingShape(group + [b], tail);
      }
    } else {
      assert Pending([], tail) == [];
    }
  }

  /** An encoding holds no zero byte and costs one byte, plus at most one for each 254. */
  lemma Shape(data: seq<byte>)
    ensures NoZero(Encode(data))
    ensures |data| + 1 <= |Encode(data)| <= |data| + |data| / 254 + 1
  {
    if data != [] {
      PendingShape([], data);
    }
  }

  // ----- exactly which buffers decode to what -----

  /** The encoding of `group` and `rest` ends in a full group. */
  predicate EndsFull(group: seq<byte>, rest: seq<byte>)
    requires |group| < FULL
    decreases |rest|
  {
    if rest == [] then false else
    var b, tail := rest[0], rest[1..];
    if b == 0 then EndsFull([], tail)
    else if |group| + 1 == FULL then tail == [] || EndsFull([], tail)
    else EndsFull(group + [b], tail)
  }

  /** The length of the last run of nonzero bytes. */
  function FinalRun(data: seq<byte>): nat {
    if NoZero(data) then |data| else FinalRun(data[1..])
  }

  lemma ZeroFirst(s: seq<byte>)
    requires s != []
    ensures NoZero(s) <==> s[0] != 0 && NoZero(s[1..])
  {
    if s[0] != 0 && NoZero(s[1..]) {
      forall i | 1 <= i < |s| ensures s[i] != 0 {
        assert s[1..][i - 1] == s[i];
      }
    }
  }

  lemma AllNonzero(group: seq<byte>, b: byte)
    requires NoZero(group)
    ensures NoZero([]) && (b != 0 ==> NoZero(group + [b]))
  {
  }

  /** Which is when the last run of nonzero bytes fills its groups exactly. */
  lemma {:induction false} EndsFullIff(group: seq<byte>, rest: seq<byte>)
    requires |group| < FULL && NoZero(group)
    ensures EndsFull(group, rest) <==>
              rest != [] && (if NoZero(rest) then (|group| + |rest|) % FULL == 0
                             else FinalRun(rest) > 0 && FinalRun(rest) % FULL == 0)
    decreases |rest|
  {
    hide NoZero;
    if rest != [] {
      var b, tail := rest[0], rest[1..];
      ZeroFirst(rest);
      AllNonzero(group, b);
      if b == 0 || |group| + 1 == FULL {
        EndsFullIff([], tail);
      } else {
        EndsFullIff(group + [b], tail);
      }
    }
  }

  /** Bytes that do not fill the group join it. */
  lemma {:induction false} Joins(group: seq<byte>, g: seq<byte>, rest: seq<byte>)
    requires |group| + |g| < FULL && NoZero(g) && rest != []
    ensures Pending(group, g + rest) == Pending(group + g, rest)
    ensures EndsFull(group, g + rest) == EndsFull(group + g, rest)
    decreases |g|
  {
    if g == [] {
      assert g + rest == rest && group + g == group;
    } else {
      assert (g + rest)[1..] == g[1..] + rest;
      assert group + [g[0]] + g[1..] == group + g;
      Joins(group + [g[0]], g[1..], rest);
    }
  }

  /** A group that a zero ends. */
  lemma EncodeShort(g: seq<byte>, more: seq<byte>)
    requires |g| < FULL && NoZero(g)
    ensures Encode(g + [0] + more) == Group(g) + Encode(more)
    ensures EndsFull([], g + [0] + more) == EndsFull([], more)
  {
    Joins([], g, [0] + more);
    Assoc(g, [0], more);
    assert [] + g == g && ([0] + more)[1..] == more;
  }

  /** A full group. */
  lemma EncodeFull(g: seq<byte>, more: seq<byte>)
    requires |g| == FULL && NoZero(g)
    ensures Encode(g + more) == Group(g) + (if more == [] then [] else Encode(more))
    ensures EndsFull([], g + more) == (more == [] || EndsFull([], more))
  {
    var front, last := g[..FULL - 1], g[FULL - 1];
    assert g + more == front + ([last] + more);
    Joins([], front, [last] + more);
    assert [] + front == front && front + [last] == g && ([last] + more)[1..] == more;
  }

  /**
   * The encoding, run by run: up to 253 nonzero bytes and a zero are their number plus one and the
   * bytes; 254 nonzero bytes are 255 and the bytes, without a zero; a last run is its own group.
   */
  lemma EncodeRuns(g: seq<byte>, more: seq<byte>)
    requires NoZero(g)
    ensures |g| < 254 ==> Encode(g + [0] + more) == [|g| + 1] + g + Encode(more)
    ensures |g| == 254 ==> Encode(g + more) == [255] + g + (if more == [] then [] else Encode(more))
    ensures |g| < 254 ==> Encode(g) == [|g| + 1] + g
  {
    hide Encode;
    if |g| < 254 {
      EncodeShort(g, more);
      EncodeLast(g);
    } else if |g| == 254 {
      EncodeFull(g, more);
    }
  }

  lemma LastByte(group: seq<byte>, b: byte)
    requires |group| + 1 < FULL && b != 0
    ensures Pending(group, [b]) == Group(group + [b]) && !EndsFull(group, [b])
  {
    assert [b][1..] == [];
  }

  lemma NothingEncoded()
    ensures Encode([]) == Group([]) && !EndsFull([], [])
  {
  }

  lemma EncodeLast(g: seq<byte>)
    requires |g| < FULL && NoZero(g)
    ensures Encode(g) == Group(g) && !EndsFull([], g)
  {
    hide Pending, EndsFull, Group;
    if g == [] {
      NothingEncoded();
    } else {
      var front, last := g[..|g| - 1], g[|g| - 1];
      assert g == front + [last];
      Joins([], front, [last]);
      assert [] + front == front;
      LastByte(front, last);
    }
  }

  /**
   * A buffer that decodes to `data` is the encoding of `data`, or that encoding with a 0x01 after a
   * final full group.
   */
  lemma {:induction false} DecodesTo(s: seq<byte>, data: seq<byte>)
    requires s != [] && Groups(s) == Ok(data)
    ensures s == Encode(data) || (s == Encode(data) + [1] && EndsFull([], data))
    decreases |s|
  {
    hide Encode, EndsFull;
    var code: nat := s[0];
    var g, tail := s[1..code], s[code..];
    assert s == Group(g) + tail;
    if tail == [] {
      assert Group(g) + [] == Group(g);
      if |g| < FULL {
        EncodeLast(g);
      } else {
        EncodeFull(g, []);
        assert g + [] == g;
      }
    } else {
      var more := Groups(tail).value;
      DecodesTo(tail, more);
      if |g| < FULL {
        EncodeShort(g, more);
        Assoc(Group(g), Encode(more), [1]);
      } else {
        EncodeFull(g, more);
        assert g + [] + more == g + more;
        if more == [] {
          EncodeLast([]);
          assert Group(g) + [] == Group(g) && g + [] == g;
        } else {
          Assoc(Group(g), Encode(more), [1]);
        }
      }
    }
  }

  lemma {:induction false} ExtraGroup(group: seq<byte>, rest: seq<byte>)
    requires |group| < FULL && NoZero(group) && EndsFull(group, rest)
    ensures Groups(Pending(group, rest) + [1]) == Ok(group + rest)
    decreases |rest|
  {
    var b, tail := rest[0], rest[1..];
    assert rest == [b] + tail;
    Assoc(group, [b], tail);
    if b == 0 {
      ExtraGroup([], tail);
      assert [] + tail == tail;
      assert tail != [];
      Assoc(Group(group), Pending([], tail), [1]);
      GroupThen(group, Pending([], tail) + [1]);
    } else if |group| + 1 == FULL {
      assert group + [b] + [] == group + [b];
      Assoc(Group(group + [b]), Pending([], tail), [1]);
      GroupThen(group + [b], Pending([], tail) + [1]);
      if tail == [] {
        assert Pending([], tail) + [1] == [1];
        assert Groups([1]) == Ok([]) by { GroupThen([], []); assert Group([]) + [] == [1]; }
        assert group + [b] + [] == group + rest;
      } else {
        ExtraGroup([], tail);
        assert [] + tail == tail;
      }
    } else {
      assert tail != [];
      ExtraGroup(group + [b], tail);
    }
  }

  /**
   * Exactly the encoding of `data` decodes to it, and, if the last run of nonzero bytes is a positive
   * multiple of 254 long, that encoding with a trailing 0x01: decoding is not injective there, and
   * only there.
   */
  lemma DecodeIff(s: seq<byte>, data: seq<byte>)
    ensures Decode(s) == Ok(data)
       <==> s == Encode(data) || (s == Encode(data) + [1] && FinalRun(data) > 0 && FinalRun(data) % 254 == 0)
  {
    hide Groups, Pending, EndsFull;
    RoundTrip(data);
    EndsFullIff([], data);
    if Decode(s) == Ok(data) {
      DecodesTo(s, data);
    }
    if EndsFull([], data) {
      SomeData(data);
      ExtraGroup([], data);
      assert [] + data == data;
    }
  }

  lemma SomeData(data: seq<byte>)
    requires EndsFull([], data)
    ensures data != []
  {
  }

  // ----- one changed byte -----

  /** Position `p` of the buffer holds a byte of data, not the code of a group. */
  predicate DataAt(s: seq<byte>, p: nat)
    decreases |s|
  {
    if s == [] || s[0] == 0 || s[0] > |s| || p == 0 then false
    else if p < s[0] then true
    else DataAt(s[s[0]..], p - s[0])
  }

  /** Changing one byte of data changes that byte of the decoded data, or is noticed. */
  lemma {:induction false} DataChange(s: seq<byte>, data: seq<byte>, p: nat, v: byte) returns (q: nat)
    requires s != [] && p < |s| && Groups(s) == Ok(data) && DataAt(s, p) && v != s[p]
    ensures v == 0 ==> Groups(s[p := v]) == Err(InteriorZero)
    ensures v != 0 ==> q < |data| && data[q] != v && Groups(s[p := v]) == Ok(data[q := v])
    decreases |s|
  {
    var code: nat := s[0];
    if p < code {
      q := p - 1;
      ChangeHere(s, data, p, v);
    } else {
      var tail := s[code..];
      var k := DataChange(tail, Groups(tail).value, p - code, v);
      q := |data| - |Groups(tail).value| + k;
      ChangeLater(s, data, p, v, k);
    }
  }

  /** The changed byte is in the first group. */
  lemma ChangeHere(s: seq<byte>, data: seq<byte>, p: nat, v: byte)
    requires s != [] && p < |s| && Groups(s) == Ok(data) && 1 <= p < s[0] && v != s[p]
    ensures v == 0 ==> Groups(s[p := v]) == Err(InteriorZero)
    ensures v != 0 ==> p - 1 < |data| && data[p - 1] != v && Groups(s[p := v]) == Ok(data[p - 1 := v])
  {
    var code: nat := s[0];
    var s', q := s[p := v], p - 1;
    var g, tail := s[1..code], s[code..];
    assert s'[1..code] == g[q := v] && s'[code..] == tail;
    if v == 0 {
      assert s'[1..code][q] == 0;
    } else if tail != [] {
      var sep: seq<byte> := if code != 0xFF then [0] else [];
      assert (g + sep + Groups(tail).value)[q := v] == g[q := v] + sep + Groups(tail).value;
    }
  }

  /** The changed byte is in a later group. */
  lemma ChangeLater(s: seq<byte>, data: seq<byte>, p: nat, v: byte, k: nat)
    requires s != [] && Groups(s) == Ok(data) && s[0] <= p < |s| && Groups(s[s[0]..]).Ok?
    requires v == 0 ==> Groups(s[s[0]..][p - s[0] := v]) == Err(InteriorZero)
    requires var more := Groups(s[s[0]..]).value;
             v != 0 ==> k < |more| && more[k] != v && Groups(s[s[0]..][p - s[0] := v]) == Ok(more[k := v])
    ensures v == 0 ==> Groups(s[p := v]) == Err(InteriorZero)
    ensures var q := |data| - |Groups(s[s[0]..]).value| + k;
            v != 0 ==> 0 <= q < |data| && data[q] != v && Groups(s[p := v]) == Ok(data[q := v])
  {
    var code: nat := s[0];
    var s' := s[p := v];
    var g, tail := s[1..code], s[code..];
    var more := Groups(tail).value;
    var sep: seq<byte> := if code != 0xFF then [0] else [];
    assert s'[1..code] == g && s'[code..] == tail[p - code := v];
    if v != 0 {
      assert (g + sep + more)[|g + sep| + k := v] == g + sep + more[k := v];
    }
  }
}
