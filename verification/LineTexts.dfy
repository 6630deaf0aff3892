/** The text of every line the emitter writes. */
module LineTexts {
  import opened Prelude
  import opened Text
  import opened Asm
  import opened Ast
  import opened ConstEval
  import opened Registers
  import opened Emit
  import P = Printer

  lemma BareText(mnemonic: string)
    ensures P.TextOf(P.WOp(true, mnemonic, [])) == "\t" + mnemonic + "\n"
  {
    assert "" + "\n" == "\n";
    Assoc("\t", mnemonic, "\n");
  }

  /** A mnemonic and what is joined after it. */
  lemma LineText(mnemonic: string, texts: seq<string>)
    requires texts != []
    ensures P.TextOf(P.WOp(true, mnemonic, texts)) == "\t" + mnemonic + " " + P.Join(texts) + "\n"
  {
    hide P.Join;
    Pieces("\t", mnemonic, " ", P.Join(texts), "\n");
  }

  lemma Pieces(a: string, b: string, c: string, d: string, e: string)
    ensures a + (b + ((c + d) + e)) == a + b + c + d + e
  {
  }

  lemma Joined(x: string, y: string, z: string)
    ensures P.Join([x]) == x && P.Join([x, y]) == x + (", " + y) && P.Join([x, y, z]) == x + (", " + (y + (", " + z)))
  {
    assert [x, y, z][1..] == [y, z] && [x, y][1..] == [y] && [y, z][1..] == [z];
    assert P.Join([y, z]) == y + (", " + z);
  }

  lemma OneText(mnemonic: string, x: string)
    ensures P.TextOf(P.WOp(true, mnemonic, [x])) == "\t" + mnemonic + " " + x + "\n"
  {
    hide P.TextOf, P.Join;
    LineText(mnemonic, [x]);
    Joined(x, "", "");
  }

  lemma TwoText(mnemonic: string, x: string, y: string)
    ensures P.TextOf(P.WOp(true, mnemonic, [x, y])) == "\t" + mnemonic + " " + (x + (", " + y)) + "\n"
  {
    hide P.TextOf, P.Join;
    LineText(mnemonic, [x, y]);
    Joined(x, y, "");
  }

  lemma ThreeText(mnemonic: string, x: string, y: string, z: string)
    ensures P.TextOf(P.WOp(true, mnemonic, [x, y, z])) == "\t" + mnemonic + " " + (x + (", " + (y + (", " + z)))) + "\n"
  {
    hide P.TextOf, P.Join;
    LineText(mnemonic, [x, y, z]);
    Joined(x, y, z);
  }

  /** A byte as the emitter writes it: two upper-case hexadecimal digits. */
  function ByteText(b: byte): string { "0x" + ["0123456789ABCDEF"[b / 16], "0123456789ABCDEF"[b % 16]] }

  function RegText(n: nat): string { "x" + Dec(n) }

  lemma Spelled(b: byte, n: nat, name: string)
    ensures P.Spell(Num(b), true) == ByteText(b) && P.Spell(Emit.Reg(n), true) == RegText(n)
    ensures P.Spell(Ident(name), true) == name
  {
    hide Dec;
  }

  lemma WrittenAs(mnemonic: string, ops: seq<Operand>, texts: seq<string>)
    requires |texts| == |ops| && forall k :: 0 <= k < |ops| ==> P.Spell(ops[k], true) == texts[k]
    ensures P.Write(Op(mnemonic, ops), true) == P.WOp(true, mnemonic, texts)
  {
    hide P.Spell;
    assert P.SpellAll(ops, true) == texts;
  }

  /** Every line the emitter makes of its own, character by character. */
  lemma MadeTexts(b: byte, r: nat, k: nat, target: string)
    ensures P.TextOf(P.Write(PutLine(b), true)) == "\t" + "put_byte" + " " + ByteText(b) + "\n"
    ensures P.TextOf(P.Write(HaltLine(b), true)) == "\t" + "halt" + " " + ByteText(b) + "\n"
    ensures P.TextOf(P.Write(GetLine(r), true)) == "\t" + "get_byte" + " " + RegText(r) + "\n"
    ensures P.TextOf(P.Write(Op("li", [Emit.Reg(k), Num(b)]), true))
         == "\t" + "li" + " " + (RegText(k) + (", " + ByteText(b))) + "\n"
    ensures P.TextOf(P.Write(Op("rdsr", [Emit.Reg(r), Ident("crc")]), true))
         == "\t" + "rdsr" + " " + (RegText(r) + (", " + "crc")) + "\n"
    ensures P.TextOf(P.Write(Op("bnez", [Emit.Reg(r), Ident(target)]), true))
         == "\t" + "bnez" + " " + (RegText(r) + (", " + target)) + "\n"
    ensures P.TextOf(P.Write(Op("beq", [Emit.Reg(r), Emit.Reg(k), Ident(target)]), true))
         == "\t" + "beq" + " " + (RegText(r) + (", " + (RegText(k) + (", " + target)))) + "\n"
    ensures P.TextOf(P.Write(Label(target), true)) == target + (":" + "\n")
  {
    hide P.Spell, ByteText, RegText, P.Join, P.Arguments, Emit.Reg;
    Spelled(b, r, target);
    Spelled(b, k, "crc");
    var x, y := Emit.Reg(r), Emit.Reg(k);
    WrittenAs("put_byte", [Num(b)], [ByteText(b)]);
    OneText("put_byte", ByteText(b));
    WrittenAs("halt", [Num(b)], [ByteText(b)]);
    OneText("halt", ByteText(b));
    WrittenAs("get_byte", [x], [RegText(r)]);
    OneText("get_byte", RegText(r));
    WrittenAs("li", [y, Num(b)], [RegText(k), ByteText(b)]);
    TwoText("li", RegText(k), ByteText(b));
    WrittenAs("rdsr", [x, Ident("crc")], [RegText(r), "crc"]);
    TwoText("rdsr", RegText(r), "crc");
    WrittenAs("bnez", [x, Ident(target)], [RegText(r), target]);
    TwoText("bnez", RegText(r), target);
    WrittenAs("beq", [x, y, Ident(target)], [RegText(r), RegText(k), target]);
    ThreeText("beq", RegText(r), RegText(k), target);
  }

  // ----- the texts of single statements -----

  lemma CopiedAdds(e: Emitter, mnemonic: Word, operands: seq<Lexeme>, e': Emitter)
    requires e.Valid() && Copy(e, mnemonic, operands) == Ok(e')
    ensures P.TextAll(e'.asm) == P.TextAll(e.asm) + P.TextOf(P.WOp(true, mnemonic, operands))
  {
    hide P.TextOf, P.TextAll, P.ReadAll;
    P.TextAppend(e.asm, CopiedText(mnemonic, operands));
  }

  /** A `fail` is a `halt` with its numeral as it is spelled. */
  lemma FailText(e: Emitter, code: Numeral, e': Emitter)
    requires e.Valid() && EmitStmt(e, Fail(code)) == Ok(e')
    ensures P.TextAll(e'.asm) == P.TextAll(e.asm) + ("\thalt " + code + "\n")
  {
    hide P.TextAll, P.ReadAll, P.TextOf, Copy;
    FailCopied(e, code, e');
    CopiedAdds(e, HALT, [code], e');
    OneText(HALT, code);
    assert "\thalt " == "\t" + "halt" + " ";
  }

  lemma FailCopied(e: Emitter, code: Numeral, e': Emitter)
    requires e.Valid() && EmitStmt(e, Fail(code)) == Ok(e')
    ensures Copy(e, HALT, [code]) == Ok(e')
  {
    hide Copy;
  }

  /** A `config` is a `set_config` with its words in order, outside frames only. */
  lemma ConfigText(e: Emitter, role: Word, io: Word, sck: Word, alert: Word, e': Emitter)
    requires e.Valid() && EmitStmt(e, Config([role, io, sck, alert])) == Ok(e')
    ensures P.TextAll(e'.asm)
         == P.TextAll(e.asm) + ("\tset_config " + role + ", " + io + ", " + sck + ", " + alert + "\n")
  {
    hide P.TextAll, P.ReadAll, P.TextOf, P.Join, Copy;
    ConfigCopied(e, [role, io, sck, alert], e');
    CopiedAdds(e, SET_CONFIG, [role, io, sck, alert], e');
    ConfigLineText([role, io, sck, alert]);
    FourJoined(role, io, sck, alert);
    FourAssoc("\tset_config ", role, io, sck, alert, "\n");
  }

  lemma ConfigCopied(e: Emitter, words: seq<Word>, e': Emitter)
    requires e.Valid() && EmitStmt(e, Config(words)) == Ok(e')
    ensures Copy(e, SET_CONFIG, words) == Ok(e')
  {
    hide Copy;
  }

  lemma ConfigLineText(words: seq<string>)
    requires words != []
    ensures P.TextOf(P.WOp(true, SET_CONFIG, words)) == "\tset_config " + (P.Join(words) + "\n")
  {
    hide P.Join, P.TextOf;
    LineText(SET_CONFIG, words);
    assert "\tset_config " == "\t" + "set_config" + " ";
    Assoc("\tset_config ", P.Join(words), "\n");
  }

  lemma FourAssoc(h: string, a: string, b: string, c: string, d: string, z: string)
    ensures h + ((a + ", " + b + ", " + c + ", " + d) + z) == h + a + ", " + b + ", " + c + ", " + d + z
  {
  }

  lemma FourJoined(a: string, b: string, c: string, d: string)
    ensures P.Join([a, b, c, d]) == a + ", " + b + ", " + c + ", " + d
  {
    assert [a, b, c, d][1..] == [b, c, d] && [b, c, d][1..] == [c, d] && [c, d][1..] == [d];
    assert P.Join([c, d]) == c + (", " + d);
    assert P.Join([b, c, d]) == b + (", " + (c + (", " + d)));
  }

  /** In a frame, a `pass`, a `fail`, a `config` or another frame is an error. */
  lemma FrameTurnsAway(e: Emitter, s: Stmt)
    requires e.Valid() && e.frames != [] && (s.Pass? || s.Fail? || s.Config? || s.Frame?)
    ensures EmitStmt(e, s) == Err(Rejected)
  {
  }
}
