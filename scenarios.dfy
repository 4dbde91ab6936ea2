/** The lines of the unit tests of src/main.rs, and a few more that show the
    edge cases of the resolvers, worked through the model. Each line is
    stated for any label and any operand of the kind the test uses; the
    test's own line is one instance. */
module Scenarios {
  import opened Wrappers
  import opened Text
  import opened Classifier
  import opened Addressing
  import opened Parser
  import opened Matching
  import opened Resolver

  // ---------------------------------------------------------------------
  // Steps shared by the lines below

  /** A token that survives the normaliser whole: no label, comment or
      operand separator in it, no `Q` (so no `EQU`), and no whitespace at
      either end. */
  predicate PlainToken(tok: string)
  {
    tok != [] && ':' !in tok && ';' !in tok && ',' !in tok && 'Q' !in tok
    && !IsWhitespace(tok[0]) && !IsWhitespace(tok[|tok| - 1])
  }

  /** A label name: text without `:` or `;`. */
  predicate LabelName(name: string)
  {
    ':' !in name && ';' !in name
  }

  /** The text after the first `:`, without comment, is what is stripped. */
  lemma LabelledLine(name: string, code: string)
    requires ':' !in name && ';' !in code
    ensures StripLine(name + ":" + code) == Trim(code)
  {
    var raw := name + ":" + code;
    assert raw[..|name|] == name && raw[|name| + 1..] == code;
    StripLineSegment(raw, |name| + 1, |raw|);
  }

  /** A line that is not `END`, does not start with `ORG` or `DB` and has no
      `Q` is not skipped. */
  lemma NotSkipped(line: string)
    requires line != "END"
    requires |line| < 3 || line[..3] != "ORG"
    requires |line| < 2 || line[..2] != "DB"
    requires 'Q' !in line
    ensures !IsSkipped(line)
  {
    SkipShapes(line);
    forall j | 1 <= j && j + 4 <= |line| ensures !EquAt(line, j) {
      assert line[j..j + 3][1] == line[j + 1];
    }
  }

  /** The shape of a line made of a mnemonic of the table, a space and
      operand text, when the skip list does not catch it. */
  lemma KnownLine(line: string, mn: string, m: Mnemonic, rawOperands: string)
    requires line == mn + " " + rawOperands && Lookup(mn) == Some(m)
    requires |mn| >= 2 && ' ' !in mn && 'Q' !in mn && 'Q' !in rawOperands
    requires mn[1] != 'B' && (|mn| < 3 || mn[2] != 'G')
    ensures ShapeOfLine(line) == Known(mn, rawOperands, Alternatives(m))
  {
    var p := |mn|;
    assert line[..p] == mn && line[p] == ' ' && line[p + 1..] == rawOperands;
    assert line[..2][1] == mn[1] && line[2] == (if |mn| >= 3 then mn[2] else ' ');
    assert |line| >= 3 ==> line[..3][2] == line[2];
    assert 'Q' !in line;
    NotSkipped(line);
    FirstOccurrence(line, ' ', p);
  }

  /** The shape of a line that is a bare mnemonic of the table. */
  lemma BareLine(mn: string, m: Mnemonic)
    requires Lookup(mn) == Some(m)
    requires |mn| >= 3 && ' ' !in mn && 'Q' !in mn
    requires mn[1] != 'B' && mn[2] != 'G' && mn[2] != 'D'
    ensures ShapeOfLine(mn) == Known(mn, "", Alternatives(m))
  {
    assert mn[..2][1] == mn[1] && mn[..3][2] == mn[2];
    assert mn != "END" by { assert "END"[2] == 'D'; }
    NotSkipped(mn);
  }

  /** An alternative whose tags classify the tokens, first in its list, is
      the one selected; `zip` keeps as many of its tags as there are tokens. */
  lemma FirstOfOne(alts: seq<seq<Tag>>, tok: string)
    requires |alts| >= 1 && |alts[0]| >= 1 && Classify(alts[0][0], tok)
    ensures FirstMatch(alts, [tok]) == Some(0) && Zipped(alts[0], [tok]) == [alts[0][0]]
  {
    assert ZipMatches(alts[0], [tok]);
    FirstMatchIsEarliest(alts, [tok], 0);
  }

  /** The same with two tokens, when the first alternative has exactly two
      tags. */
  lemma FirstOfTwo(alts: seq<seq<Tag>>, tok: string, tok': string)
    requires |alts| >= 1 && |alts[0]| == 2 && Classify(alts[0][0], tok) && Classify(alts[0][1], tok')
    ensures FirstMatch(alts, [tok, tok']) == Some(0) && Zipped(alts[0], [tok, tok']) == alts[0]
  {
    assert ZipMatches(alts[0], [tok, tok']);
    FirstMatchIsEarliest(alts, [tok, tok'], 0);
  }

  /** The bytes after the opcode of the mode sequences of the lines below. */
  lemma OneDirectBytes()
    ensures SumBytes([Direct(false)]) == 1
  {
    assert [Direct(false)][1..] == [];
  }

  lemma TwoDirectBytes()
    ensures SumBytes([Direct(false), Direct(false)]) == 2
  {
    assert [Direct(false), Direct(false)][1..] == [Direct(false)];
  }

  lemma DptrImmediateBytes()
    ensures SumBytes([RegisterDirect, Immediate(true)]) == 2
  {
    assert [RegisterDirect, Immediate(true)][1..] == [Immediate(true)];
  }

  /** The modes and bytes of one operand tag. */
  lemma OneTag(t: Tag)
    requires t != AB
    ensures ModesOfTags([t]) == [AddrMode(t).value]
    ensures SumBytes([AddrMode(t).value]) == BytesRequired(AddrMode(t).value)
  {
    assert [t][1..] == [];
    assert [AddrMode(t).value][1..] == [];
  }

  /** The modes and bytes of two operand tags. */
  lemma TwoTags(t: Tag, u: Tag)
    requires t != AB && u != AB
    ensures ModesOfTags([t, u]) == [AddrMode(t).value, AddrMode(u).value]
    ensures SumBytes([AddrMode(t).value, AddrMode(u).value])
            == BytesRequired(AddrMode(t).value) + BytesRequired(AddrMode(u).value)
  {
    assert [t, u][1..] == [u];
    assert [AddrMode(t).value, AddrMode(u).value][1..] == [AddrMode(u).value];
    OneTag(u);
  }

  /** A shape whose selected alternative zips to `tags` is valid, with the
      modes of those tags. */
  lemma SelectedAt(shape: LineShape, i: nat, tags: seq<Tag>, ms: seq<AddressingMode>)
    requires shape.Known? && ABAlone(shape.alternatives)
    requires FirstMatch(shape.alternatives, Operands(shape.rawOperands)) == Some(i)
    requires Zipped(shape.alternatives[i], Operands(shape.rawOperands)) == tags
    requires AB !in tags && ModesOfTags(tags) == ms
    ensures IsValidShape(shape) == Ok(()) && ModesOfShape(shape) == Returned(Ok(ms))
  {
    ResolvedModes(shape, i);
  }

  /** Operand text made of these separator-free pieces splits into them, and
      each token is its piece trimmed. */
  lemma TokensOf(rawOperands: string, pieces: seq<string>, toks: seq<string>)
    requires |pieces| >= 1 && forall k | 0 <= k < |pieces| :: ',' !in pieces[k]
    requires Join(pieces, ',') == rawOperands
    requires |toks| == |pieces| && forall k | 0 <= k < |toks| :: Trim(pieces[k]) == toks[k]
    ensures Operands(rawOperands) == toks
  {
    SplitJoin(pieces, ',');
  }

  /** A labelled instruction strips to its mnemonic, a space and its
      operand text. */
  lemma StrippedInstruction(name: string, mn: string, ops: string)
    requires LabelName(name) && ';' !in mn && ';' !in ops
    requires mn != [] && !IsWhitespace(mn[0])
    requires ops != [] && !IsWhitespace(ops[|ops| - 1])
    ensures StripLine(name + ": " + mn + " " + ops) == mn + " " + ops
  {
    var code := " " + (mn + " " + ops);
    LabelRegrouped(name, mn, ops);
    LabelledLine(name, code);
    TrimmedAfterSpace(mn + " " + ops);
  }

  /** An instruction without label or comment strips to itself. */
  lemma UnlabelledInstruction(mn: string, ops: string)
    requires ':' !in mn && ';' !in mn && ':' !in ops && ';' !in ops
    requires mn != [] && !IsWhitespace(mn[0])
    requires ops != [] && !IsWhitespace(ops[|ops| - 1])
    ensures StripLine(mn + " " + ops) == mn + " " + ops
  {
    var line := mn + " " + ops;
    assert line[0] == mn[0] && line[|line| - 1] == ops[|ops| - 1];
    assert ':' !in line && ';' !in line;
    assert line[..0] == [] && line[|line|..] == [];
    TrimUnique(line, 0, |line|);
  }

  /** A label and a bare mnemonic strip to the mnemonic. */
  lemma StrippedBare(name: string, mn: string)
    requires LabelName(name) && ';' !in mn
    requires mn != [] && !IsWhitespace(mn[0]) && !IsWhitespace(mn[|mn| - 1])
    ensures StripLine(name + ": " + mn) == mn
  {
    assert name + ": " + mn == name + ":" + (" " + mn);
    LabelledLine(name, " " + mn);
    TrimmedAfterSpace(mn);
  }

  lemma LabelRegrouped(name: string, mn: string, ops: string)
    ensures name + ": " + mn + " " + ops == name + ":" + (" " + (mn + " " + ops))
  {
  }

  lemma TrimmedAfterSpace(line: string)
    requires line != [] && !IsWhitespace(line[0]) && !IsWhitespace(line[|line| - 1])
    ensures Trim(" " + line) == line
  {
    var code := " " + line;
    assert code[1..] == line && code[..1] == " " && code[|code|..] == [];
    TrimUnique(code, 1, |code|);
  }

  /** A plain token is the only operand of its operand text. */
  lemma TokenAlone(tok: string)
    requires PlainToken(tok)
    ensures Operands(tok) == [tok]
  {
    TrimUnique(tok, 0, |tok|);
    TokensOf(tok, [tok], [tok]);
  }

  /** Two plain tokens with `, ` between them are two operands. */
  lemma TwoTokens(a: string, b: string)
    requires PlainToken(a) && PlainToken(b)
    ensures Operands(a + ", " + b) == [a, b]
  {
    TrimUnique(a, 0, |a|);
    TrimmedAfterSpace(b);
    assert Join([a, " " + b], ',') == a + ", " + b;
    TokensOf(a + ", " + b, [a, " " + b], [a, b]);
  }

  // ---------------------------------------------------------------------
  // The unit tests of src/main.rs

  /** `SJMP target` is the relative jump of the table. */
  lemma SjmpLine(target: string)
    requires PlainToken(target)
    ensures ShapeOfLine("SJMP" + " " + target) == Known("SJMP", target, Alternatives(SJMP))
  {
    LookupName(SJMP);
    KnownLine("SJMP" + " " + target, "SJMP", SJMP, target);
  }

  /** The first alternative of `SJMP` takes a label. */
  lemma SjmpSelects(target: string)
    requires Label(target)
    ensures FirstMatch(Alternatives(SJMP), [target]) == Some(0)
    ensures Zipped(Alternatives(SJMP)[0], [target]) == [Rel1B]
  {
    var alts := Alternatives(SJMP);
    assert alts[0] == [Rel1B];
    FirstOfOne(alts, target);
  }

  /** The matcher of `make_matcher` gives `SJMP` two cycles. */
  lemma SjmpCycle(operands: seq<string>)
    ensures DoMatch(MakeMatcher(), Instruction("SJMP", operands)) == Ok(2)
  {
    MnemonicRuleDecides(17, operands);
  }

  /** A relative jump to a label: the validity check accepts it, with these modes. */
  lemma SjmpModes(target: string)
    requires PlainToken(target) && Label(target)
    ensures var shape := Known("SJMP", target, Alternatives(SJMP));
            IsValidShape(shape) == Ok(()) && ModesOfShape(shape) == Returned(Ok([Direct(false)]))
  {
    TableABAlone(SJMP);
    TokenAlone(target);
    SjmpSelects(target);
    OneTag(Rel1B);
    SelectedAt(Known("SJMP", target, Alternatives(SJMP)), 0, [Rel1B], [Direct(false)]);
  }

  /** A relative jump to a label takes 2 cycles. */
  lemma SjmpCycles(target: string)
    requires PlainToken(target) && Label(target)
    ensures CycleOfShape(Known("SJMP", target, Alternatives(SJMP)), MakeMatcher()) == Ok(2)
  {
    TokenAlone(target);
    SjmpSelects(target);
    SjmpCycle(TagNames([Rel1B]));
  }

  /** `HERE: SJMP HERE`: valid, two bytes, two cycles. */
  lemma SjmpToLabel(name: string, target: string)
    requires LabelName(name) && PlainToken(target) && Label(target)
    ensures var raw := name + ": SJMP " + target;
            IsValidOf(raw) == Ok(())
            && ModesOf(raw) == Returned(Ok([Direct(false)]))
            && MemoryOf(raw) == Returned(Ok(2))
            && CycleOf(raw, MakeMatcher()) == Ok(2)
  {
    assert name + ": SJMP " + target == name + ": " + "SJMP" + " " + target;
    StrippedInstruction(name, "SJMP", target);
    SjmpLine(target);
    SjmpModes(target);
    OneDirectBytes();
    MemoryShapeFromModes(Known("SJMP", target, Alternatives(SJMP)));
    SjmpCycles(target);
  }

  /** `SETB flag` is the bit-setting instruction of the table. */
  lemma SetbLine(flag: string)
    requires PlainToken(flag)
    ensures ShapeOfLine("SETB" + " " + flag) == Known("SETB", flag, Alternatives(SETB))
  {
    LookupName(SETB);
    KnownLine("SETB" + " " + flag, "SETB", SETB, flag);
  }

  /** The first alternative of `SETB` takes a bit. */
  lemma SetbSelects(flag: string)
    requires Classify(Bit, flag)
    ensures FirstMatch(Alternatives(SETB), [flag]) == Some(0)
    ensures Zipped(Alternatives(SETB)[0], [flag]) == [Bit]
  {
    var alts := Alternatives(SETB);
    assert alts[0] == [Bit];
    FirstOfOne(alts, flag);
  }

  /** No rule names `SETB`: one cycle. */
  lemma SetbCycle(operands: seq<string>)
    ensures DoMatch(MakeMatcher(), Instruction("SETB", operands)) == Ok(1)
  {
    UnruledMnemonic(Instruction("SETB", operands));
  }

  /** Setting a bit: the validity check accepts it, with these modes. */
  lemma SetbModes(flag: string)
    requires PlainToken(flag) && Classify(Bit, flag)
    ensures var shape := Known("SETB", flag, Alternatives(SETB));
            IsValidShape(shape) == Ok(()) && ModesOfShape(shape) == Returned(Ok([Direct(false)]))
  {
    TableABAlone(SETB);
    TokenAlone(flag);
    SetbSelects(flag);
    OneTag(Bit);
    SelectedAt(Known("SETB", flag, Alternatives(SETB)), 0, [Bit], [Direct(false)]);
  }

  /** Setting a bit takes 1 cycle. */
  lemma SetbCycles(flag: string)
    requires PlainToken(flag) && Classify(Bit, flag)
    ensures CycleOfShape(Known("SETB", flag, Alternatives(SETB)), MakeMatcher()) == Ok(1)
  {
    TokenAlone(flag);
    SetbSelects(flag);
    SetbCycle(TagNames([Bit]));
  }

  /** `BACK: SETB TR1`: valid, two bytes, one cycle. */
  lemma SetbBit(name: string, flag: string)
    requires LabelName(name) && PlainToken(flag) && Classify(Bit, flag)
    ensures var raw := name + ": SETB " + flag;
            IsValidOf(raw) == Ok(())
            && ModesOf(raw) == Returned(Ok([Direct(false)]))
            && MemoryOf(raw) == Returned(Ok(2))
            && CycleOf(raw, MakeMatcher()) == Ok(1)
  {
    assert name + ": SETB " + flag == name + ": " + "SETB" + " " + flag;
    StrippedInstruction(name, "SETB", flag);
    SetbLine(flag);
    SetbModes(flag);
    OneDirectBytes();
    MemoryShapeFromModes(Known("SETB", flag, Alternatives(SETB)));
    SetbCycles(flag);
  }

  /** `CLR bit` is the bit-clearing instruction of the table. */
  lemma ClrLine(bit: string)
    requires PlainToken(bit)
    ensures ShapeOfLine("CLR" + " " + bit) == Known("CLR", bit, Alternatives(CLR))
  {
    LookupName(CLR);
    KnownLine("CLR" + " " + bit, "CLR", CLR, bit);
  }

  /** The first alternative of `CLR` takes a bit. */
  lemma ClrSelects(bit: string)
    requires Classify(Bit, bit)
    ensures FirstMatch(Alternatives(CLR), [bit]) == Some(0)
    ensures Zipped(Alternatives(CLR)[0], [bit]) == [Bit]
  {
    var alts := Alternatives(CLR);
    assert alts[0] == [Bit];
    FirstOfOne(alts, bit);
  }

  /** No rule names `CLR`: one cycle. */
  lemma ClrCycle(operands: seq<string>)
    ensures DoMatch(MakeMatcher(), Instruction("CLR", operands)) == Ok(1)
  {
    UnruledMnemonic(Instruction("CLR", operands));
  }

  /** Clearing a bit: the validity check accepts it, with these modes. */
  lemma ClrModes(bit: string)
    requires PlainToken(bit) && Classify(Bit, bit)
    ensures var shape := Known("CLR", bit, Alternatives(CLR));
            IsValidShape(shape) == Ok(()) && ModesOfShape(shape) == Returned(Ok([Direct(false)]))
  {
    TableABAlone(CLR);
    TokenAlone(bit);
    ClrSelects(bit);
    OneTag(Bit);
    SelectedAt(Known("CLR", bit, Alternatives(CLR)), 0, [Bit], [Direct(false)]);
  }

  /** Clearing a bit takes 1 cycle. */
  lemma ClrCycles(bit: string)
    requires PlainToken(bit) && Classify(Bit, bit)
    ensures CycleOfShape(Known("CLR", bit, Alternatives(CLR)), MakeMatcher()) == Ok(1)
  {
    TokenAlone(bit);
    ClrSelects(bit);
    ClrCycle(TagNames([Bit]));
  }

  /** `CLR P2.0`: valid, two bytes, one cycle. */
  lemma ClrBit(bit: string)
    requires PlainToken(bit) && Classify(Bit, bit)
    ensures var raw := "CLR " + bit;
            IsValidOf(raw) == Ok(())
            && ModesOf(raw) == Returned(Ok([Direct(false)]))
            && MemoryOf(raw) == Returned(Ok(2))
            && CycleOf(raw, MakeMatcher()) == Ok(1)
  {
    assert "CLR " + bit == "CLR" + " " + bit;
    UnlabelledInstruction("CLR", bit);
    ClrLine(bit);
    ClrModes(bit);
    OneDirectBytes();
    MemoryShapeFromModes(Known("CLR", bit, Alternatives(CLR)));
    ClrCycles(bit);
  }

  /** `MOV DPTR, imm` is a move of the table. */
  lemma MovDptrLine(imm: string)
    requires PlainToken(imm)
    ensures ShapeOfLine("MOV" + " " + ("DPTR, " + imm)) == Known("MOV", "DPTR, " + imm, Alternatives(MOV))
  {
    LookupName(MOV);
    assert 'Q' !in "DPTR, " + imm;
    KnownLine("MOV" + " " + ("DPTR, " + imm), "MOV", MOV, "DPTR, " + imm);
  }

  /** `DPTR` is no one-byte address. */
  lemma DptrNoAddress()
    ensures !Classify(Addr1B, "DPTR")
  {
    if ByteNumeral("DPTR") {
      NumeralStartsWithDigit("DPTR");
    }
  }

  /** The move alternatives before `DPTR, imm2B` all fail on `DPTR`. */
  lemma MovDptrSelects(imm: string)
    requires Classify(Imm2B, imm)
    ensures FirstMatch(Alternatives(MOV), ["DPTR", imm]) == Some(7)
    ensures Zipped(Alternatives(MOV)[7], ["DPTR", imm]) == [DPTR, Imm2B]
  {
    var alts := Alternatives(MOV);
    MovBeforeDptr();
    assert forall j | 0 <= j < 7 :: !ZipMatches(alts[j], ["DPTR", imm]);
    assert alts[7] == [DPTR, Imm2B];
    FirstMatchIsEarliest(alts, ["DPTR", imm], 7);
  }

  /** The first tag of each of the first seven move alternatives rejects
      `DPTR`. */
  lemma MovBeforeDptr()
    ensures forall j | 0 <= j < 7 :: |Alternatives(MOV)[j]| == 2 && !Classify(Alternatives(MOV)[j][0], "DPTR")
  {
    var alts := Alternatives(MOV);
    assert alts[0][0] == A && alts[2][0] == AtRi && alts[3][0] == Rn;
    assert alts[1][0] == Addr1B && alts[4][0] == Addr1B && alts[5][0] == Addr1B && alts[6][0] == Addr1B;
    DptrNoAddress();
  }

  /** The form rule for `MOV DPTR, imm2B` gives it two cycles. */
  lemma MovDptrCycle()
    ensures DoMatch(MakeMatcher(), Instruction("MOV", ["DPTR", "imm2B"])) == Ok(2)
  {
    FormRuleDecides(11);
  }

  /** The selected move loads `DPTR` with a two-byte immediate:
      three bytes with the opcode byte. */
  lemma MovDptrTags()
    ensures ModesOfTags([DPTR, Imm2B]) == [RegisterDirect, Immediate(true)]
    ensures SumBytes(ModesOfTags([DPTR, Imm2B])) + 1 == 3
    ensures TagNames([DPTR, Imm2B]) == ["DPTR", "imm2B"]
  {
    TwoTags(DPTR, Imm2B);
  }

  /** Loading `DPTR`: the validity check accepts it, with these
      modes. */
  lemma MovDptrModes(imm: string)
    requires PlainToken(imm) && Classify(Imm2B, imm)
    ensures var shape := Known("MOV", "DPTR, " + imm, Alternatives(MOV));
            IsValidShape(shape) == Ok(()) && ModesOfShape(shape) == Returned(Ok([RegisterDirect, Immediate(true)]))
  {
    TableABAlone(MOV);
    MovDptrOperands(imm);
    MovDptrSelects(imm);
    MovDptrTags();
    SelectedAt(Known("MOV", "DPTR, " + imm, Alternatives(MOV)), 7, [DPTR, Imm2B], [RegisterDirect, Immediate(true)]);
  }

  /** Loading `DPTR` takes 2 cycles. */
  lemma MovDptrCycles(imm: string)
    requires PlainToken(imm) && Classify(Imm2B, imm)
    ensures CycleOfShape(Known("MOV", "DPTR, " + imm, Alternatives(MOV)), MakeMatcher()) == Ok(2)
  {
    MovDptrOperands(imm);
    MovDptrSelects(imm);
    MovDptrTags();
    MovDptrCycle();
  }

  /** The line `MOV DPTR, imm` is a move with that operand text. */
  lemma MovDptrShape(imm: string)
    requires PlainToken(imm)
    ensures ShapeOf("MOV DPTR, " + imm) == Known("MOV", "DPTR, " + imm, Alternatives(MOV))
  {
    assert "MOV DPTR, " + imm == "MOV" + " " + ("DPTR, " + imm);
    UnlabelledInstruction("MOV", "DPTR, " + imm);
    MovDptrLine(imm);
  }

  /** `MOV DPTR, #200H`: valid, three bytes, two cycles. */
  lemma MovDptrImmediate(imm: string)
    requires PlainToken(imm) && Classify(Imm2B, imm)
    ensures var raw := "MOV DPTR, " + imm;
            IsValidOf(raw) == Ok(())
            && ModesOf(raw) == Returned(Ok([RegisterDirect, Immediate(true)]))
            && MemoryOf(raw) == Returned(Ok(3))
            && CycleOf(raw, MakeMatcher()) == Ok(2)
  {
    MovDptrShape(imm);
    MovDptrModes(imm);
    DptrImmediateBytes();
    MemoryShapeFromModes(Known("MOV", "DPTR, " + imm, Alternatives(MOV)));
    MovDptrCycles(imm);
  }

  /** The operands of `MOV DPTR, imm` are `DPTR` and the immediate. */
  lemma MovDptrOperands(imm: string)
    requires PlainToken(imm)
    ensures Operands("DPTR, " + imm) == ["DPTR", imm]
  {
    assert "DPTR, " + imm == "DPTR" + ", " + imm;
    TwoTokens("DPTR", imm);
  }

  /** `WAIT:`: a label alone, with only whitespace after it, is a blank line:
      valid, no operands, no bytes, no cycles. */
  lemma LabelAlone(name: string, rest: string, m: Matcher)
    requires LabelName(name) && ';' !in rest && AllWhitespace(rest)
    ensures var raw := name + ":" + rest;
            IsValidOf(raw) == Ok(())
            && ModesOf(raw) == Returned(Ok([]))
            && MemoryOf(raw) == Returned(Ok(0))
            && CycleOf(raw, m) == Ok(0)
  {
    LabelledLine(name, rest);
    assert rest[..|rest|] == rest && rest[|rest|..] == [];
    TrimUnique(rest, |rest|, |rest|);
    PreludeResults(name + ":" + rest, m);
  }

  /** `JNB bit, target` is the jump on a clear bit of the table. */
  lemma JnbLine(bit: string, target: string)
    requires PlainToken(bit) && PlainToken(target)
    ensures ShapeOfLine("JNB" + " " + (bit + ", " + target)) == Known("JNB", bit + ", " + target, Alternatives(JNB))
  {
    LookupName(JNB);
    KnownLine("JNB" + " " + (bit + ", " + target), "JNB", JNB, bit + ", " + target);
  }

  /** The only alternative of `JNB` takes a bit and a label. */
  lemma JnbSelects(bit: string, target: string)
    requires Classify(Bit, bit) && Label(target)
    ensures FirstMatch(Alternatives(JNB), [bit, target]) == Some(0)
    ensures Zipped(Alternatives(JNB)[0], [bit, target]) == [Bit, Rel1B]
  {
    var alts := Alternatives(JNB);
    assert alts[0] == [Bit, Rel1B];
    FirstOfTwo(alts, bit, target);
  }

  /** A bit and a relative offset are both direct operands of one byte. */
  lemma JnbTags()
    ensures AB !in [Bit, Rel1B] && ModesOfTags([Bit, Rel1B]) == [Direct(false), Direct(false)]
  {
    TwoTags(Bit, Rel1B);
  }

  /** The matcher of `make_matcher` gives `JNB` two cycles. */
  lemma JnbCycle(operands: seq<string>)
    ensures DoMatch(MakeMatcher(), Instruction("JNB", operands)) == Ok(2)
  {
    MnemonicRuleDecides(9, operands);
  }

  /** A jump on a clear bit: the validity check accepts it, with these modes. */
  lemma JnbModes(bit: string, target: string)
    requires PlainToken(bit) && PlainToken(target) && Classify(Bit, bit) && Label(target)
    ensures var shape := Known("JNB", bit + ", " + target, Alternatives(JNB));
            IsValidShape(shape) == Ok(()) && ModesOfShape(shape) == Returned(Ok([Direct(false), Direct(false)]))
  {
    TableABAlone(JNB);
    TwoTokens(bit, target);
    JnbSelects(bit, target);
    JnbTags();
    SelectedAt(Known("JNB", bit + ", " + target, Alternatives(JNB)), 0, [Bit, Rel1B], [Direct(false), Direct(false)]);
  }

  /** A jump on a clear bit takes 2 cycles. */
  lemma JnbCycles(bit: string, target: string)
    requires PlainToken(bit) && PlainToken(target) && Classify(Bit, bit) && Label(target)
    ensures CycleOfShape(Known("JNB", bit + ", " + target, Alternatives(JNB)), MakeMatcher()) == Ok(2)
  {
    TwoTokens(bit, target);
    JnbSelects(bit, target);
    JnbCycle(TagNames([Bit, Rel1B]));
  }

  /** `WAIT: JNB TI, WAIT`: valid, three bytes, two cycles. */
  lemma JnbToLabel(name: string, bit: string, target: string)
    requires LabelName(name) && PlainToken(bit) && PlainToken(target)
    requires Classify(Bit, bit) && Label(target)
    ensures var raw := name + ": JNB " + bit + ", " + target;
            IsValidOf(raw) == Ok(())
            && ModesOf(raw) == Returned(Ok([Direct(false), Direct(false)]))
            && MemoryOf(raw) == Returned(Ok(3))
            && CycleOf(raw, MakeMatcher()) == Ok(2)
  {
    assert name + ": JNB " + bit + ", " + target == name + ": " + "JNB" + " " + (bit + ", " + target);
    StrippedInstruction(name, "JNB", bit + ", " + target);
    JnbLine(bit, target);
    JnbModes(bit, target);
    TwoDirectBytes();
    MemoryShapeFromModes(Known("JNB", bit + ", " + target, Alternatives(JNB)));
    JnbCycles(bit, target);
  }

  // ---------------------------------------------------------------------
  // Edge cases of the resolvers

  /** `MUL ab` is the multiplication of the table. */
  lemma MulLine(ab: string)
    requires PlainToken(ab)
    ensures ShapeOfLine("MUL" + " " + ab) == Known("MUL", ab, Alternatives(MUL))
  {
    LookupName(MUL);
    KnownLine("MUL" + " " + ab, "MUL", MUL, ab);
  }

  /** The only alternative of `MUL` is `AB`. */
  lemma MulSelects(ab: string)
    requires Classify(AB, ab)
    ensures FirstMatch(Alternatives(MUL), [ab]) == Some(0)
    ensures Zipped(Alternatives(MUL)[0], [ab]) == [AB]
  {
    var alts := Alternatives(MUL);
    assert alts[0] == [AB];
    FirstOfOne(alts, ab);
  }

  /** `AB` has no addressing mode: the modes and the bytes of `MUL AB`
      panic, although the validity check accepts it. */
  lemma MulPanics(ab: string)
    requires PlainToken(ab) && Classify(AB, ab)
    ensures var shape := Known("MUL", ab, Alternatives(MUL));
            IsValidShape(shape) == Ok(())
            && ModesOfShape(shape) == Panicked && MemoryOfShape(shape) == Panicked
  {
    var shape := Known("MUL", ab, Alternatives(MUL));
    TableABAlone(MUL);
    TokenAlone(ab);
    MulSelects(ab);
    ShapeModesSelected(shape);
    MemoryShapeFromModes(shape);
  }

  /** The matcher of `make_matcher` gives `MUL` four cycles. */
  lemma MulCycle(operands: seq<string>)
    ensures DoMatch(MakeMatcher(), Instruction("MUL", operands)) == Ok(4)
  {
    MnemonicRuleDecides(0, operands);
  }

  /** `MUL AB` takes four cycles: the cycle resolver does not ask for modes. */
  lemma MulCycles(ab: string)
    requires PlainToken(ab) && Classify(AB, ab)
    ensures CycleOfShape(Known("MUL", ab, Alternatives(MUL)), MakeMatcher()) == Ok(4)
  {
    TokenAlone(ab);
    MulSelects(ab);
    MulCycle(TagNames([AB]));
  }

  /** `LOOP: MUL AB`: valid and four cycles, but `get_modes` and `get_memory`
      panic. */
  lemma MulAccumulator(name: string, ab: string)
    requires LabelName(name) && PlainToken(ab) && Classify(AB, ab)
    ensures var raw := name + ": MUL " + ab;
            IsValidOf(raw) == Ok(())
            && ModesOf(raw) == Panicked
            && MemoryOf(raw) == Panicked
            && CycleOf(raw, MakeMatcher()) == Ok(4)
  {
    assert name + ": MUL " + ab == name + ": " + "MUL" + " " + ab;
    StrippedInstruction(name, "MUL", ab);
    MulLine(ab);
    MulPanics(ab);
    MulCycles(ab);
  }

  /** `DIV ab` is the division of the table. */
  lemma DivLine(ab: string)
    requires PlainToken(ab)
    ensures ShapeOfLine("DIV" + " " + ab) == Known("DIV", ab, Alternatives(DIV))
  {
    LookupName(DIV);
    KnownLine("DIV" + " " + ab, "DIV", DIV, ab);
  }

  /** The only alternative of `DIV` is `AB`. */
  lemma DivSelects(ab: string)
    requires Classify(AB, ab)
    ensures FirstMatch(Alternatives(DIV), [ab]) == Some(0)
    ensures Zipped(Alternatives(DIV)[0], [ab]) == [AB]
  {
    var alts := Alternatives(DIV);
    assert alts[0] == [AB];
    FirstOfOne(alts, ab);
  }

  /** `AB` has no addressing mode: the modes and the bytes of `DIV AB`
      panic, although the validity check accepts it. */
  lemma DivPanics(ab: string)
    requires PlainToken(ab) && Classify(AB, ab)
    ensures var shape := Known("DIV", ab, Alternatives(DIV));
            IsValidShape(shape) == Ok(())
            && ModesOfShape(shape) == Panicked && MemoryOfShape(shape) == Panicked
  {
    var shape := Known("DIV", ab, Alternatives(DIV));
    TableABAlone(DIV);
    TokenAlone(ab);
    DivSelects(ab);
    ShapeModesSelected(shape);
    MemoryShapeFromModes(shape);
  }

  /** The matcher of `make_matcher` gives `DIV` four cycles. */
  lemma DivCycle(operands: seq<string>)
    ensures DoMatch(MakeMatcher(), Instruction("DIV", operands)) == Ok(4)
  {
    MnemonicRuleDecides(1, operands);
  }

  /** `DIV AB` takes four cycles: the cycle resolver does not ask for modes. */
  lemma DivCycles(ab: string)
    requires PlainToken(ab) && Classify(AB, ab)
    ensures CycleOfShape(Known("DIV", ab, Alternatives(DIV)), MakeMatcher()) == Ok(4)
  {
    TokenAlone(ab);
    DivSelects(ab);
    DivCycle(TagNames([AB]));
  }

  /** `LOOP: DIV AB`: valid and four cycles, but `get_modes` and `get_memory`
      panic. */
  lemma DivAccumulator(name: string, ab: string)
    requires LabelName(name) && PlainToken(ab) && Classify(AB, ab)
    ensures var raw := name + ": DIV " + ab;
            IsValidOf(raw) == Ok(())
            && ModesOf(raw) == Panicked
            && MemoryOf(raw) == Panicked
            && CycleOf(raw, MakeMatcher()) == Ok(4)
  {
    assert name + ": DIV " + ab == name + ": " + "DIV" + " " + ab;
    StrippedInstruction(name, "DIV", ab);
    DivLine(ab);
    DivPanics(ab);
    DivCycles(ab);
  }

  /** `RET` is a bare mnemonic of the table, without alternatives. */
  lemma RetLine()
    ensures ShapeOfLine("RET") == Known("RET", "", [])
  {
    LookupName(RET);
    BareLine("RET", RET);
  }

  /** A label and `RET` strip to `RET`. */
  lemma RetStripped(name: string)
    requires LabelName(name)
    ensures StripLine(name + ": RET") == "RET"
  {
    assert name + ": RET" == name + ": " + "RET";
    StrippedBare(name, "RET");
  }

  /** A mnemonic without alternatives and without operand text. */
  lemma RetShapeFails()
    ensures var shape := Known("RET", "", []);
            IsValidShape(shape) == Ok(())
            && ModesOfShape(shape) == Returned(Err(ParseError))
            && MemoryOfShape(shape) == Returned(Err(ParseError))
            && CycleOfShape(shape, MakeMatcher()) == Err(MatchError)
  {
    assert Trim("") == "";
  }

  /** `LOOP: RET`: the validity check accepts a mnemonic without operands,
      but the three resolvers fail on it, since there is no alternative to
      select; the matcher's rule for `RET` is never consulted. */
  lemma RetFails(name: string)
    requires LabelName(name)
    ensures var raw := name + ": RET";
            IsValidOf(raw) == Ok(())
            && ModesOf(raw) == Returned(Err(ParseError))
            && MemoryOf(raw) == Returned(Err(ParseError))
            && CycleOf(raw, MakeMatcher()) == Err(MatchError)
  {
    RetStripped(name);
    RetLine();
    RetShapeFails();
  }

  /** `JNB bit` is the jump on a clear bit of the table, written without
      its target. */
  lemma JnbBareLine(bit: string)
    requires PlainToken(bit)
    ensures ShapeOfLine("JNB" + " " + bit) == Known("JNB", bit, Alternatives(JNB))
  {
    LookupName(JNB);
    KnownLine("JNB" + " " + bit, "JNB", JNB, bit);
  }

  /** With the bit alone, the only alternative of `JNB` is selected: `zip`
      stops at the one token and the label's tag is never looked at. */
  lemma JnbBareSelects(bit: string)
    requires Classify(Bit, bit)
    ensures FirstMatch(Alternatives(JNB), [bit]) == Some(0)
    ensures Zipped(Alternatives(JNB)[0], [bit]) == [Bit]
  {
    var alts := Alternatives(JNB);
    assert alts[0] == [Bit, Rel1B];
    FirstOfOne(alts, bit);
  }

  /** `JNB bit` is accepted with only the bit's mode. */
  lemma JnbBareModes(bit: string)
    requires PlainToken(bit) && Classify(Bit, bit)
    ensures var shape := Known("JNB", bit, Alternatives(JNB));
            IsValidShape(shape) == Ok(()) && ModesOfShape(shape) == Returned(Ok([Direct(false)]))
  {
    TableABAlone(JNB);
    TokenAlone(bit);
    JnbBareSelects(bit);
    OneTag(Bit);
    SelectedAt(Known("JNB", bit, Alternatives(JNB)), 0, [Bit], [Direct(false)]);
  }

  /** The rule for `JNB` ignores the operands: still two cycles. */
  lemma JnbBareCycles(bit: string)
    requires PlainToken(bit) && Classify(Bit, bit)
    ensures CycleOfShape(Known("JNB", bit, Alternatives(JNB)), MakeMatcher()) == Ok(2)
  {
    TokenAlone(bit);
    JnbBareSelects(bit);
    JnbCycle(TagNames([Bit]));
  }

  /** `JNB TI`, missing its target: valid, two bytes instead of three, and
      two cycles. */
  lemma JnbMissingTarget(bit: string)
    requires PlainToken(bit) && Classify(Bit, bit)
    ensures var raw := "JNB " + bit;
            IsValidOf(raw) == Ok(())
            && ModesOf(raw) == Returned(Ok([Direct(false)]))
            && MemoryOf(raw) == Returned(Ok(2))
            && CycleOf(raw, MakeMatcher()) == Ok(2)
  {
    assert "JNB " + bit == "JNB" + " " + bit;
    UnlabelledInstruction("JNB", bit);
    JnbBareLine(bit);
    JnbBareModes(bit);
    OneDirectBytes();
    MemoryShapeFromModes(Known("JNB", bit, Alternatives(JNB)));
    JnbBareCycles(bit);
  }

  // ---------------------------------------------------------------------
  // The tokens of the unit tests

  /** `HERE` and `WAIT` are labels; `BACK` is a label name. */
  lemma TestLabels()
    ensures PlainToken("HERE") && Label("HERE") && LabelName("HERE")
    ensures PlainToken("WAIT") && Label("WAIT") && LabelName("WAIT")
    ensures LabelName("BACK")
  {
  }

  /** `TR1`, `TI` and `P2.0` are bits. */
  lemma TestBits()
    ensures PlainToken("TR1") && Classify(Bit, "TR1")
    ensures PlainToken("TI") && Classify(Bit, "TI")
    ensures PlainToken("P2.0") && Classify(Bit, "P2.0")
  {
  }

  /** The immediate of the `dptr` test is a plain token. */
  lemma ImmediatePlain()
    ensures PlainToken("#200H")
  {
  }

  /** `#200H` is a two-byte immediate. */
  lemma TestImmediate()
    ensures Classify(Imm2B, "#200H")
  {
    assert "#200H"[1..] == "200H" && "200H"[..3] == "200" && "200"[1..] == "00";
    assert DigitsMatch(HexWord, "200");
    assert Suffixed("200H", 'H', HexWord);
  }
}
