/** The instruction table, the skip list, the line normaliser and the
    validity check of src/parser.rs. */
module Parser {
  import opened Wrappers
  import opened Text
  import opened Classifier
  import opened Addressing

  /** The single failure of parsing a line. */
  datatype ParseError = ParseError

  /** The mnemonics the table holds, in the table's order. */
  datatype Mnemonic =
    | NOP
    | AJMP
    | RR
    | INC
    | JBC
    | ACALL
    | LCALL
    | RRC
    | DEC
    | JB
    | RET
    | RL
    | ADD
    | JNB
    | RETI
    | RLC
    | ADDC
    | JC
    | ORL
    | JNC
    | ANL
    | JZ
    | XRL
    | JNZ
    | JMP
    | MOV
    | SJMP
    | MOVC
    | DIV
    | SUBB
    | MUL
    | CPL
    | CJNE
    | PUSH
    | CLR
    | SWAP
    | XCH
    | POP
    | SETB
    | DA
    | DJNZ
    | XCHD
    | MOVX

  /** The spelling of each mnemonic. */
  function MnemonicName(m: Mnemonic): string
  {
    match m
    case NOP => "NOP"
    case AJMP => "AJMP"
    case RR => "RR"
    case INC => "INC"
    case JBC => "JBC"
    case ACALL => "ACALL"
    case LCALL => "LCALL"
    case RRC => "RRC"
    case DEC => "DEC"
    case JB => "JB"
    case RET => "RET"
    case RL => "RL"
    case ADD => "ADD"
    case JNB => "JNB"
    case RETI => "RETI"
    case RLC => "RLC"
    case ADDC => "ADDC"
    case JC => "JC"
    case ORL => "ORL"
    case JNC => "JNC"
    case ANL => "ANL"
    case JZ => "JZ"
    case XRL => "XRL"
    case JNZ => "JNZ"
    case JMP => "JMP"
    case MOV => "MOV"
    case SJMP => "SJMP"
    case MOVC => "MOVC"
    case DIV => "DIV"
    case SUBB => "SUBB"
    case MUL => "MUL"
    case CPL => "CPL"
    case CJNE => "CJNE"
    case PUSH => "PUSH"
    case CLR => "CLR"
    case SWAP => "SWAP"
    case XCH => "XCH"
    case POP => "POP"
    case SETB => "SETB"
    case DA => "DA"
    case DJNZ => "DJNZ"
    case XCHD => "XCHD"
    case MOVX => "MOVX"
  }

  /** The table lookup of a mnemonic's spelling; a spelling the table does not
      hold finds nothing. */
  function Lookup(s: string): Option<Mnemonic>
  {
    match s
    case "NOP" => Some(NOP)
    case "AJMP" => Some(AJMP)
    case "RR" => Some(RR)
    case "INC" => Some(INC)
    case "JBC" => Some(JBC)
    case "ACALL" => Some(ACALL)
    case "LCALL" => Some(LCALL)
    case "RRC" => Some(RRC)
    case "DEC" => Some(DEC)
    case "JB" => Some(JB)
    case "RET" => Some(RET)
    case "RL" => Some(RL)
    case "ADD" => Some(ADD)
    case "JNB" => Some(JNB)
    case "RETI" => Some(RETI)
    case "RLC" => Some(RLC)
    case "ADDC" => Some(ADDC)
    case "JC" => Some(JC)
    case "ORL" => Some(ORL)
    case "JNC" => Some(JNC)
    case "ANL" => Some(ANL)
    case "JZ" => Some(JZ)
    case "XRL" => Some(XRL)
    case "JNZ" => Some(JNZ)
    case "JMP" => Some(JMP)
    case "MOV" => Some(MOV)
    case "SJMP" => Some(SJMP)
    case "MOVC" => Some(MOVC)
    case "DIV" => Some(DIV)
    case "SUBB" => Some(SUBB)
    case "MUL" => Some(MUL)
    case "CPL" => Some(CPL)
    case "CJNE" => Some(CJNE)
    case "PUSH" => Some(PUSH)
    case "CLR" => Some(CLR)
    case "SWAP" => Some(SWAP)
    case "XCH" => Some(XCH)
    case "POP" => Some(POP)
    case "SETB" => Some(SETB)
    case "DA" => Some(DA)
    case "DJNZ" => Some(DJNZ)
    case "XCHD" => Some(XCHD)
    case "MOVX" => Some(MOVX)
    case _ => None
  }

  /** Every mnemonic is found under its own spelling. */
  lemma LookupName(m: Mnemonic)
    ensures Lookup(MnemonicName(m)) == Some(m)
  {
    if m.NOP? || m.AJMP? || m.RR? || m.INC? || m.JBC? || m.ACALL? || m.LCALL? || m.RRC? ||
       m.DEC? || m.JB? {
      LookupName1(m);
    } else if m.RET? || m.RL? || m.ADD? || m.JNB? || m.RETI? || m.RLC? || m.ADDC? || m.JC? {
      LookupName2(m);
    } else if m.ORL? || m.JNC? || m.ANL? || m.JZ? || m.XRL? || m.JNZ? || m.JMP? {
      LookupName3(m);
    } else if m.MOV? || m.SJMP? || m.MOVC? || m.DIV? || m.SUBB? || m.MUL? {
      LookupName4(m);
    } else if m.CPL? || m.CJNE? || m.PUSH? || m.CLR? || m.SWAP? {
      LookupName5(m);
    } else if m.XCH? || m.POP? || m.SETB? || m.DA? {
      LookupName6(m);
    } else {
      LookupName7(m);
    }
  }

  // The groups of LookupName, a few mnemonics at a time.

  lemma LookupName1(m: Mnemonic)
    requires m.NOP? || m.AJMP? || m.RR? || m.INC? || m.JBC? || m.ACALL? || m.LCALL? ||
             m.RRC? || m.DEC? || m.JB?
    ensures Lookup(MnemonicName(m)) == Some(m)
  {
  }

  lemma LookupName2(m: Mnemonic)
    requires m.RET? || m.RL? || m.ADD? || m.JNB? || m.RETI? || m.RLC? || m.ADDC? ||
             m.JC?
    ensures Lookup(MnemonicName(m)) == Some(m)
  {
  }

  lemma LookupName3(m: Mnemonic)
    requires m.ORL? || m.JNC? || m.ANL? || m.JZ? || m.XRL? || m.JNZ? || m.JMP?
    ensures Lookup(MnemonicName(m)) == Some(m)
  {
  }

  lemma LookupName4(m: Mnemonic)
    requires m.MOV? || m.SJMP? || m.MOVC? || m.DIV? || m.SUBB? || m.MUL?
    ensures Lookup(MnemonicName(m)) == Some(m)
  {
  }

  lemma LookupName5(m: Mnemonic)
    requires m.CPL? || m.CJNE? || m.PUSH? || m.CLR? || m.SWAP?
    ensures Lookup(MnemonicName(m)) == Some(m)
  {
  }

  lemma LookupName6(m: Mnemonic)
    requires m.XCH? || m.POP? || m.SETB? || m.DA?
    ensures Lookup(MnemonicName(m)) == Some(m)
  {
  }

  lemma LookupName7(m: Mnemonic)
    requires m.DJNZ? || m.XCHD? || m.MOVX?
    ensures Lookup(MnemonicName(m)) == Some(m)
  {
  }

  /** `AB` is only ever the whole of an alternative. */
  predicate ABAlone(alts: seq<seq<Tag>>)
  {
    forall j, k | 0 <= j < |alts| && 0 <= k < |alts[j]| :: alts[j][k] == AB ==> |alts[j]| == 1
  }

  /** For every mnemonic, its operand-tag alternatives in the order they are
      tried. A mnemonic without operands has no alternative. */
  function Alternatives(m: Mnemonic): seq<seq<Tag>>
  {
    match m
    case NOP => []
    case AJMP => [[Addr1B]]
    case RR => [[A]]
    case INC => [[A], [Addr1B], [AtRi], [Rn], [DPTR]]
    case JBC => [[Bit, Rel1B]]
    case ACALL => [[Addr1B]]
    case LCALL => [[Addr2B]]
    case RRC => [[A]]
    case DEC => [[A], [AtRi], [Rn]]
    case JB => [[Bit, Rel1B]]
    case RET => []
    case RL => [[A]]
    case ADD => [[A, Imm1B], [A, Addr1B], [A, AtRi], [A, Rn]]
    case JNB => [[Bit, Rel1B]]
    case RETI => []
    case RLC => [[A]]
    case ADDC => [[A, Imm1B], [A, Addr1B], [A, AtRi], [A, Rn]]
    case JC => [[Rel1B]]
    case ORL => [[Addr1B, A], [Addr1B, Imm1B], [A, Imm1B], [A, Addr1B], [A, AtRi], [A, Rn], [C, Bit], [Bit, C]]
    case JNC => [[Rel1B]]
    case ANL => [[Addr1B, A], [Addr1B, Imm1B], [A, Imm1B], [A, Addr1B], [A, AtRi], [A, Rn], [C, Bit], [Bit, C]]
    case JZ => [[Rel1B]]
    case XRL => [[Addr1B, A], [Addr1B, Imm1B], [A, Imm1B], [A, Addr1B], [A, AtRi], [A, Rn]]
    case JNZ => [[Rel1B]]
    case JMP => [[AtAPlusDPTR]]
    case MOV => [[A, Imm1B], [Addr1B, Imm1B], [AtRi, Imm1B], [Rn, Imm1B], [Addr1B, Addr1B], [Addr1B, AtRi], [Addr1B, Rn],
                [DPTR, Imm2B], [Bit, C], [C, Bit], [AtRi, Addr1B], [Rn, Addr1B],
                [A, Addr1B], [A, AtRi], [A, Rn], [Addr1B, A], [AtRi, A], [Rn, A]]
    case SJMP => [[Rel1B]]
    case MOVC => [[A, AtAPlusDPTR], [A, AtAPlusPC]]
    case DIV => [[AB]]
    case SUBB => [[A, Imm1B], [A, Addr1B], [A, AtRi], [A, Rn]]
    case MUL => [[AB]]
    case CPL => [[Bit], [C], [A]]
    case CJNE => [[A, Imm1B, Rel1B], [A, Addr1B, Rel1B], [AtRi, Imm1B, Rel1B], [Rn, Imm1B, Rel1B]]
    case PUSH => [[Addr1B]]
    case CLR => [[Bit], [C], [A]]
    case SWAP => [[A]]
    case XCH => [[A, Addr1B], [A, AtRi], [A, Rn]]
    case POP => [[Addr1B]]
    case SETB => [[Bit], [C]]
    case DA => [[A]]
    case DJNZ => [[Addr1B, Rel1B], [Rn, Rel1B]]
    case XCHD => [[A, AtRi]]
    case MOVX => [[A, AtDPTR], [A, AtRi], [AtDPTR, A], [AtRi, A]]
  }

  /** The table puts `AB` in no alternative beside another tag. */
  lemma TableABAlone(m: Mnemonic)
    ensures ABAlone(Alternatives(m))
  {
    if m.NOP? || m.AJMP? || m.RR? || m.INC? || m.JBC? || m.ACALL? || m.LCALL? || m.RRC? ||
       m.DEC? || m.JB? || m.RET? || m.RL? {
      TableABAlone1(m);
    } else if m.ADD? || m.JNB? || m.RETI? || m.RLC? || m.ADDC? || m.JC? || m.ORL? || m.JNC? ||
       m.ANL? || m.JZ? || m.XRL? || m.JNZ? {
      TableABAlone2(m);
    } else if m.JMP? || m.SJMP? || m.MOVC? || m.DIV? || m.SUBB? || m.MUL? || m.CPL? || m.CJNE? ||
       m.PUSH? {
      TableABAlone3(m);
    } else if m.CLR? || m.SWAP? || m.XCH? || m.POP? || m.SETB? || m.DA? || m.DJNZ? || m.XCHD? ||
       m.MOVX? {
      TableABAlone4(m);
    } else {
      TableABAlone5(m);
    }
  }

  // The groups of TableABAlone; MOV, with its eighteen alternatives, is one
  // on its own.

  lemma TableABAlone1(m: Mnemonic)
    requires m.NOP? || m.AJMP? || m.RR? || m.INC? || m.JBC? || m.ACALL? || m.LCALL? ||
             m.RRC? || m.DEC? || m.JB? || m.RET? || m.RL?
    ensures ABAlone(Alternatives(m))
  {
  }

  lemma TableABAlone2(m: Mnemonic)
    requires m.ADD? || m.JNB? || m.RETI? || m.RLC? || m.ADDC? || m.JC? || m.ORL? ||
             m.JNC? || m.ANL? || m.JZ? || m.XRL? || m.JNZ?
    ensures ABAlone(Alternatives(m))
  {
  }

  lemma TableABAlone3(m: Mnemonic)
    requires m.JMP? || m.SJMP? || m.MOVC? || m.DIV? || m.SUBB? || m.MUL? || m.CPL? ||
             m.CJNE? || m.PUSH?
    ensures ABAlone(Alternatives(m))
  {
  }

  lemma TableABAlone4(m: Mnemonic)
    requires m.CLR? || m.SWAP? || m.XCH? || m.POP? || m.SETB? || m.DA? || m.DJNZ? ||
             m.XCHD? || m.MOVX?
    ensures ABAlone(Alternatives(m))
  {
  }

  lemma TableABAlone5(m: Mnemonic)
    requires m.MOV?
    ensures ABAlone(Alternatives(m))
  {
  }

  // ---------------------------------------------------------------------
  // The skip list

  /** The four line shapes that are not instructions. */
  datatype SkipPattern =
    | End   // ^END$
    | Org   // ^ORG.+$
    | Db    // ^DB.+$
    | Equ   // ^.+EQU.+$

  const SkipList: seq<SkipPattern> := [End, Org, Db, Equ]

  predicate NoNewline(s: string) { '\n' !in s }

  /** `EQU` starts at index `j` and at least one character follows it. */
  predicate EquAt(s: string, j: int)
  {
    0 <= j && j + 4 <= |s| && s[j..j + 3] == "EQU"
  }

  /** Whether `EQU` occurs at some index `from` or later with at least one
      character after it. */
  function EquFrom(s: string, from: nat): (r: bool)
    ensures r <==> exists j | from <= j :: EquAt(s, j)
    decreases |s| - from
  {
    from + 4 <= |s| && (EquAt(s, from) || EquFrom(s, from + 1))
  }

  predicate SkipMatches(p: SkipPattern, line: string)
  {
    match p
    case End => line == "END"
    case Org => |line| > 3 && line[..3] == "ORG" && NoNewline(line[3..])
    case Db => |line| > 2 && line[..2] == "DB" && NoNewline(line[2..])
    case Equ => NoNewline(line) && EquFrom(line, 1)
  }

  /** Whether any pattern of the skip list matches the stripped line. */
  predicate IsSkipped(line: string)
  {
    exists p | p in SkipList :: SkipMatches(p, line)
  }

  /** The skipped lines: `END`; `ORG` or `DB` followed by at least one more
      character; or `EQU` with at least one character on each side; in every
      case with no newline after the first character. */
  lemma SkipShapes(line: string)
    ensures IsSkipped(line) <==>
      line == "END"
      || (|line| > 3 && line[..3] == "ORG" && NoNewline(line[3..]))
      || (|line| > 2 && line[..2] == "DB" && NoNewline(line[2..]))
      || (NoNewline(line) && exists j | 1 <= j :: EquAt(line, j))
  {
    assert End in SkipList && Org in SkipList && Db in SkipList && Equ in SkipList;
  }

  // ---------------------------------------------------------------------
  // The line normaliser, shared by the validity check and the three
  // resolvers

  /** The text after the first `:`, or all of it without one. */
  function AfterLabel(raw: string): string
  {
    match SplitOnce(raw, ':')
    case Some((_, after)) => after
    case None => raw
  }

  /** The text before the first `;`, or all of it without one. */
  function BeforeComment(s: string): string
  {
    match SplitOnce(s, ';')
    case Some((before, _)) => before
    case None => s
  }

  /** The line without its label (everything up to the first `:`) and its
      comment (everything from the first `;` after that), trimmed. */
  function StripLine(raw: string): string
  {
    if ':' in raw || ';' in raw then Trim(BeforeComment(AfterLabel(raw))) else Trim(raw)
  }

  /** The test for `:` or `;` in front of the cutting changes nothing. */
  lemma StripLineCutsAlways(raw: string)
    ensures StripLine(raw) == Trim(BeforeComment(AfterLabel(raw)))
  {
  }

  /** The stripped line is the trimmed text between the end of the label and
      the start of the comment: `a` is just after the first `:` (or 0 without
      one) and `b` is the first `;` from `a` on (or the end). */
  lemma StripLineSegment(raw: string, a: nat, b: nat)
    requires a <= b <= |raw|
    requires (a == 0 && ':' !in raw) || (a > 0 && raw[a - 1] == ':' && ':' !in raw[..a - 1])
    requires (b == |raw| && ';' !in raw[a..]) || (b < |raw| && raw[b] == ';' && ';' !in raw[a..b])
    ensures StripLine(raw) == Trim(raw[a..b])
  {
    var afterLabel := AfterLabel(raw);
    assert afterLabel == raw[a..] by {
      if a > 0 {
        FirstOccurrence(raw, ':', a - 1);
      }
    }
    assert BeforeComment(afterLabel) == raw[a..b] by {
      if b < |raw| {
        assert afterLabel[b - a] == ';' && afterLabel[..b - a] == raw[a..b];
        FirstOccurrence(afterLabel, ';', b - a);
      } else {
        assert afterLabel == raw[a..b];
      }
    }
    StripLineCutsAlways(raw);
  }

  /** A character at `i` that occurs nowhere before `i` is what `split_once`
      splits at. */
  lemma FirstOccurrence(s: string, c: char, i: nat)
    requires i < |s| && s[i] == c && c !in s[..i]
    ensures SplitOnce(s, c) == Some((s[..i], s[i + 1..]))
  {
    var r := SplitOnce(s, c).value;
    assert s == r.0 + [c] + r.1;
    assert s[|r.0|] == c;
    assert forall k | 0 <= k < |r.0| :: s[k] == r.0[k];
    assert forall k | 0 <= k < i :: s[k] == s[..i][k];
    assert |r.0| == i;
    assert r.0 == s[..i];
    assert r.1 == s[i + 1..];
  }

  /** A trimmed piece of a text without `c` has no `c` either. */
  lemma TrimKeepsAbsent(s: string, c: char)
    requires c !in s
    ensures c !in Trim(s)
  {
    var i := SkipWhitespace(s, 0);
    var j := SkipWhitespaceBack(s, i, |s|);
    SliceKeepsAbsent(s, i, j, c);
  }

  /** A slice of a text without `c` has no `c` either. */
  lemma SliceKeepsAbsent(s: string, i: nat, j: nat, c: char)
    requires i <= j <= |s| && c !in s
    ensures c !in s[i..j]
  {
    forall k | 0 <= k < j - i
      ensures s[i..j][k] != c
    {
      assert s[i..j][k] == s[i + k];
    }
  }

  /** The stripped line has no comment left, and no surrounding whitespace. */
  lemma StripLineClean(raw: string)
    ensures ';' !in StripLine(raw)
    ensures StripLine(raw) == Trim(StripLine(raw))
  {
    StripLineCutsAlways(raw);
    var code := BeforeComment(AfterLabel(raw));
    assert ';' !in code;
    TrimKeepsAbsent(code, ';');
    TrimIdempotent(code);
  }

  /** The stripped line has the first space at which the mnemonic ends, and
      the raw operand text after it. */
  function SplitMnemonic(line: string): (r: (string, string))
    ensures ' ' !in r.0
    ensures ' ' in line ==> line == r.0 + " " + r.1
    ensures ' ' !in line ==> r == (line, "")
  {
    if ' ' in line then SplitOnce(line, ' ').value else (line, "")
  }

  /** The operand tokens: the raw operand text split at every `,`, each piece
      trimmed. */
  function Operands(rawOperands: string): (toks: seq<string>)
    ensures |toks| == Count(rawOperands, ',') + 1
    ensures forall k | 0 <= k < |toks| :: ',' !in toks[k] && toks[k] == Trim(toks[k])
  {
    var pieces := Split(rawOperands, ',');
    SplitCount(pieces, ',');
    var toks := seq(|pieces|, k requires 0 <= k < |pieces| => Trim(pieces[k]));
    forall k | 0 <= k < |toks|
      ensures ',' !in toks[k] && toks[k] == Trim(toks[k])
    {
      TrimIdempotent(pieces[k]);
      TrimKeepsAbsent(pieces[k], ',');
    }
    toks
  }

  /** A mnemonic without operand text has exactly one operand token, the
      empty one. */
  lemma EmptyOperandText()
    ensures Operands("") == [""]
  {
    SplitJoin([""], ',');
    assert Split("", ',') == [""];
  }

  // ---------------------------------------------------------------------
  // Selecting an alternative

  /** Every position that both the tags and the tokens reach classifies: the
      pairing of `zip`, which stops at the shorter of the two. */
  predicate ZipMatches(tags: seq<Tag>, toks: seq<string>)
  {
    forall k | 0 <= k < Min(|tags|, |toks|) :: Classify(tags[k], toks[k])
  }

  function FirstMatchFrom(alts: seq<seq<Tag>>, toks: seq<string>, from: nat): (r: Option<nat>)
    requires from <= |alts|
    ensures r.Some? ==> from <= r.value < |alts| && ZipMatches(alts[r.value], toks)
                        && forall j | from <= j < r.value :: !ZipMatches(alts[j], toks)
    ensures r.None? ==> forall j | from <= j < |alts| :: !ZipMatches(alts[j], toks)
    decreases |alts| - from
  {
    if from == |alts| then None
    else if ZipMatches(alts[from], toks) then Some(from)
    else FirstMatchFrom(alts, toks, from + 1)
  }

  /** The index of the first alternative, in table order, all of whose zipped
      positions classify. */
  function FirstMatch(alts: seq<seq<Tag>>, toks: seq<string>): (r: Option<nat>)
    ensures r.Some? ==> r.value < |alts| && ZipMatches(alts[r.value], toks)
                        && forall j | 0 <= j < r.value :: !ZipMatches(alts[j], toks)
    ensures r.None? ==> forall j | 0 <= j < |alts| :: !ZipMatches(alts[j], toks)
  {
    FirstMatchFrom(alts, toks, 0)
  }

  /** The first match is the earliest matching alternative, and only that one. */
  lemma FirstMatchIsEarliest(alts: seq<seq<Tag>>, toks: seq<string>, i: nat)
    requires i < |alts| && ZipMatches(alts[i], toks)
    requires forall j | 0 <= j < i :: !ZipMatches(alts[j], toks)
    ensures FirstMatch(alts, toks) == Some(i)
  {
    var r := FirstMatch(alts, toks);
    assert r.Some?;
    assert r.value == i;
  }

  /** Alternatives after the first match are never consulted: replacing them
      does not change the result. */
  lemma {:induction false} LaterAlternativesIgnored(alts: seq<seq<Tag>>, rest: seq<seq<Tag>>, toks: seq<string>)
    requires FirstMatch(alts, toks).Some?
    ensures var i := FirstMatch(alts, toks).value;
            FirstMatch(alts[..i + 1] + rest, toks) == Some(i)
  {
    var i := FirstMatch(alts, toks).value;
    var alts' := alts[..i + 1] + rest;
    assert forall j | 0 <= j <= i :: alts'[j] == alts[j];
    assert forall j | i < j < |alts'| :: alts'[j] == rest[j - i - 1];
    FirstMatchIsEarliest(alts', toks, i);
  }

  // ---------------------------------------------------------------------
  // What a line comes to before any alternative is tried

  datatype LineShape =
    | Blank                      // nothing left after stripping
    | Skipped                    // a directive of the skip list
    | Unknown(mnemonic: string)  // a mnemonic the table does not hold
    | Known(mnemonic: string, rawOperands: string, alternatives: seq<seq<Tag>>)

  /** An empty line is blank; split off the mnemonic; a line of the skip list
      is skipped; otherwise look the mnemonic up. */
  function ShapeOfLine(line: string): (shape: LineShape)
    ensures shape.Blank? <==> line == ""
    ensures shape.Skipped? <==> line != "" && IsSkipped(line)
    ensures shape.Unknown? || shape.Known? ==>
              line != "" && !IsSkipped(line)
              && (shape.mnemonic, if shape.Known? then shape.rawOperands else SplitMnemonic(line).1)
                 == SplitMnemonic(line)
    ensures shape.Unknown? ==> Lookup(shape.mnemonic).None?
    ensures shape.Known? ==> Lookup(shape.mnemonic).Some?
                             && shape.alternatives == Alternatives(Lookup(shape.mnemonic).value)
  {
    if line == "" then Blank
    else
      var (instruction, rawOperands) := SplitMnemonic(line);
      if IsSkipped(line) then Skipped
      else match Lookup(instruction)
        case None => Unknown(instruction)
        case Some(m) => Known(instruction, rawOperands, Alternatives(m))
  }

  /** The shape of a raw line: the shape of the line the normaliser leaves. */
  function ShapeOf(raw: string): (shape: LineShape)
    ensures shape.Blank? <==> StripLine(raw) == ""
    ensures shape.Skipped? <==> StripLine(raw) != "" && IsSkipped(StripLine(raw))
    ensures shape.Unknown? || shape.Known? ==>
              StripLine(raw) != "" && !IsSkipped(StripLine(raw))
              && (shape.mnemonic, if shape.Known? then shape.rawOperands else SplitMnemonic(StripLine(raw)).1)
                 == SplitMnemonic(StripLine(raw))
    ensures shape.Unknown? ==> Lookup(shape.mnemonic).None?
    ensures shape.Known? ==> Lookup(shape.mnemonic).Some?
                             && shape.alternatives == Alternatives(Lookup(shape.mnemonic).value)
  {
    ShapeOfLine(StripLine(raw))
  }

  /** The verdict of the validity check on a line's shape. */
  function IsValidShape(shape: LineShape): Result<(), ParseError>
  {
    match shape
    case Blank => Ok(())
    case Skipped => Ok(())
    case Unknown(_) => Err(ParseError)
    case Known(_, rawOperands, alts) =>
      if alts == [] then
        if Trim(rawOperands) == "" then Ok(()) else Err(ParseError)
      else if FirstMatch(alts, Operands(rawOperands)).Some? then Ok(())
      else Err(ParseError)
  }

  /** The verdict of the validity check on a raw line. */
  function IsValidOf(raw: string): Result<(), ParseError>
  {
    IsValidShape(ShapeOf(raw))
  }

  /** The validity check of a raw line. */
  method IsValid(raw: string) returns (r: Result<(), ParseError>)
    ensures r == IsValidOf(raw)
  {
    var line := StripLine(raw);
    if line == "" {
      return Ok(());
    }
    var (instruction, rawOperands) := SplitMnemonic(line);
    if IsSkipped(line) {
      return Ok(());
    }
    var entry := Lookup(instruction);
    if entry.None? {
      return Err(ParseError);
    }
    var allOperands := Alternatives(entry.value);
    if allOperands == [] {
      if Trim(rawOperands) == "" {
        return Ok(());
      }
      return Err(ParseError);
    }
    var found := AnyAlternativeMatches(allOperands, Operands(rawOperands));
    r := if found then Ok(()) else Err(ParseError);
  }

  /** The loops of the validity check: alternative by alternative, and within
      one pair by pair until a pair fails to classify. */
  method AnyAlternativeMatches(allOperands: seq<seq<Tag>>, operands: seq<string>) returns (found: bool)
    ensures found <==> FirstMatch(allOperands, operands).Some?
  {
    var i := 0;
    while i < |allOperands|
      invariant 0 <= i <= |allOperands|
      invariant forall j | 0 <= j < i :: !ZipMatches(allOperands[j], operands)
    {
      var ops := allOperands[i];
      var isMatch := true;
      var n := Min(|ops|, |operands|);
      var k := 0;
      while k < n
        invariant 0 <= k <= n
        invariant forall m | 0 <= m < k :: Classify(ops[m], operands[m])
      {
        if !Classify(ops[k], operands[k]) {
          isMatch := false;
          break;
        }
        k := k + 1;
      }
      if isMatch {
        return true;
      }
      i := i + 1;
    }
    return false;
  }

  /** Blank and skipped lines are valid; an unknown mnemonic is not. */
  lemma IsValidPrelude(raw: string)
    ensures ShapeOf(raw).Blank? || ShapeOf(raw).Skipped? ==> IsValidOf(raw) == Ok(())
    ensures ShapeOf(raw).Unknown? ==> IsValidOf(raw) == Err(ParseError)
  {
  }

  /** A mnemonic without operands is valid exactly when nothing but
      whitespace follows it. */
  lemma IsValidZeroOperand(raw: string)
    requires ShapeOf(raw).Known? && ShapeOf(raw).alternatives == []
    ensures IsValidOf(raw).Ok? <==> Trim(ShapeOf(raw).rawOperands) == ""
  {
  }

  /** Any other known mnemonic is valid exactly when some alternative has all
      its zipped positions classifying. */
  lemma IsValidSomeAlternative(raw: string)
    requires ShapeOf(raw).Known? && ShapeOf(raw).alternatives != []
    ensures var shape := ShapeOf(raw);
            IsValidOf(raw).Ok? <==>
              exists i | 0 <= i < |shape.alternatives| ::
                ZipMatches(shape.alternatives[i], Operands(shape.rawOperands))
  {
  }
}
