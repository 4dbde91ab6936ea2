/** The operand classifier: for each operand tag, the shape of token it
    accepts (src/parser.rs, get_regex). Every pattern there is anchored at both
    ends, so a tag accepts a token exactly when the whole token has the shape;
    each pattern is written out below as a predicate on the token text. A `.` of
    those patterns matches any character but a newline. */
module Classifier {

  /** The operand tags of the instruction table; `TagName` gives the spelling
      the table and the cycle rules use. */
  datatype Tag =
    | A | AB | C | DPTR | AtAPlusDPTR | AtAPlusPC | AtDPTR | AtRi | Rn
    | Addr1B | Imm1B | Addr2B | Imm2B | Rel1B | Bit

  function TagName(t: Tag): string
  {
    match t
    case A => "A"
    case AB => "AB"
    case C => "C"
    case DPTR => "DPTR"
    case AtAPlusDPTR => "@A+DPTR"
    case AtAPlusPC => "@A+PC"
    case AtDPTR => "@DPTR"
    case AtRi => "@Ri"
    case Rn => "Rn"
    case Addr1B => "addr1B"
    case Imm1B => "imm1B"
    case Addr2B => "addr2B"
    case Imm2B => "imm2B"
    case Rel1B => "rel1B"
    case Bit => "bit"
  }

  /** Distinct tags have distinct names. */
  lemma TagNameInjective(t: Tag, u: Tag)
    requires TagName(t) == TagName(u)
    ensures t == u
  {
  }

  predicate IsDigit(c: char) { '0' <= c <= '9' }
  predicate IsNonZeroDigit(c: char) { '1' <= c <= '9' }
  predicate IsHexDigit(c: char) { IsDigit(c) || 'A' <= c <= 'F' }
  predicate IsBinDigit(c: char) { c == '0' || c == '1' }
  predicate IsUpper(c: char) { 'A' <= c <= 'Z' }
  predicate IsOctalDigit(c: char) { '0' <= c <= '7' }

  predicate AllZeros(s: string) { forall k | 0 <= k < |s| :: s[k] == '0' }
  predicate AllSpaces(s: string) { forall k | 0 <= k < |s| :: s[k] == ' ' }
  predicate AllHex(s: string) { forall k | 0 <= k < |s| :: IsHexDigit(s[k]) }
  predicate AllDigits(s: string) { forall k | 0 <= k < |s| :: IsDigit(s[k]) }
  predicate AllBin(s: string) { forall k | 0 <= k < |s| :: IsBinDigit(s[k]) }

  /** The digit groups that follow the leading zeros of a numeral. */
  datatype Digits =
    | HexByte          // [1-9][A-F0-9] | 0[0-9A-F]{1,2}
    | HexWord          // [1-9][A-F0-9]{1,3} | 0[0-9A-F]{1,4}
    | Bin(most: nat)   // [0-1]{1,most}
    | Dec(most: nat)   // [0-9]{1,most}

  predicate DigitsMatch(d: Digits, t: string)
  {
    match d
    case HexByte =>
      (|t| == 2 && IsNonZeroDigit(t[0]) && IsHexDigit(t[1]))
      || (2 <= |t| <= 3 && t[0] == '0' && AllHex(t[1..]))
    case HexWord =>
      (2 <= |t| <= 4 && IsNonZeroDigit(t[0]) && AllHex(t[1..]))
      || (2 <= |t| <= 5 && t[0] == '0' && AllHex(t[1..]))
    case Bin(most) => 1 <= |t| <= most && AllBin(t)
    case Dec(most) => 1 <= |t| <= most && AllDigits(t)
  }

  /** `0*` followed by the digit group `d`: the digit group itself, or a
      zero in front of a zero-padded digit group. */
  predicate ZeroPadded(d: Digits, s: string)
    decreases |s|
  {
    DigitsMatch(d, s) || (|s| >= 1 && s[0] == '0' && ZeroPadded(d, s[1..]))
  }

  /** A zero-padded digit group followed by the suffix letter. */
  predicate Suffixed(s: string, suffix: char, d: Digits)
  {
    |s| >= 1 && s[|s| - 1] == suffix && ZeroPadded(d, s[..|s| - 1])
  }

  /** `0*[0-9]{1,most}D?` */
  predicate Decimal(s: string, most: nat)
  {
    ZeroPadded(Dec(most), s) || Suffixed(s, 'D', Dec(most))
  }

  /** The one-byte numeral: hexadecimal with `H`, binary with `B`, decimal
      with an optional `D`. */
  predicate ByteNumeral(s: string)
  {
    Suffixed(s, 'H', HexByte) || Suffixed(s, 'B', Bin(8)) || Decimal(s, 3)
  }

  /** The two-byte numeral, with up to four hexadecimal, sixteen binary or five
      decimal digits. */
  predicate WordNumeral(s: string)
  {
    Suffixed(s, 'H', HexWord) || Suffixed(s, 'B', Bin(16)) || Decimal(s, 5)
  }

  /** `@A *\+ *` followed by `base`. */
  predicate IndexedForm(s: string, base: string)
  {
    |s| >= 3 + |base| && s[..2] == "@A" && s[|s| - |base|..] == base
    && SpacedPlus(s[2..|s| - |base|])
  }

  /** ` *\+ *`: a plus sign with only spaces around it, the leading spaces
      dropped one at a time. */
  predicate SpacedPlus(s: string)
    decreases |s|
  {
    |s| >= 1 && ((s[0] == '+' && AllSpaces(s[1..])) || (s[0] == ' ' && SpacedPlus(s[1..])))
  }

  /** `[A-Z][A-Z0-9_-]*`: a symbolic label. */
  predicate Label(s: string)
  {
    |s| >= 1 && IsUpper(s[0])
    && forall k | 1 <= k < |s| :: IsUpper(s[k]) || IsDigit(s[k]) || s[k] == '_' || s[k] == '-'
  }

  /** `(P[0-7]|ACC).[0-7]`: a bit of a port or of the accumulator. */
  predicate PortBit(s: string)
  {
    (|s| == 4 && s[0] == 'P' && IsOctalDigit(s[1]) && s[2] != '\n' && IsOctalDigit(s[3]))
    || (|s| == 5 && s[..3] == "ACC" && s[3] != '\n' && IsOctalDigit(s[4]))
  }

  /** `#` followed by `0*(…)H`, `0*[0-1]{1,8}B` or `-?0*[0-9]{1,3}D?`. */
  predicate ImmediateByte(s: string)
  {
    |s| >= 1 && s[0] == '#'
    && (var r := s[1..];
        Suffixed(r, 'H', HexByte) || Suffixed(r, 'B', Bin(8)) || Decimal(r, 3)
        || (|r| >= 1 && r[0] == '-' && Decimal(r[1..], 3)))
  }

  /** Whether the token has the shape the tag stands for. */
  predicate Classify(tag: Tag, tok: string)
  {
    match tag
    case A => tok == "A"
    case AB => tok == "AB"
    case C => tok == "C"
    case DPTR => tok == "DPTR"
    case AtAPlusDPTR => IndexedForm(tok, "DPTR")
    case AtAPlusPC => IndexedForm(tok, "PC")
    case AtDPTR => tok == "@DPTR"
    case AtRi => |tok| == 3 && tok[..2] == "@R" && IsBinDigit(tok[2])
    case Rn => |tok| == 2 && tok[0] == 'R' && IsOctalDigit(tok[1])
    case Addr1B =>
      ByteNumeral(tok) || tok == "B"
      || tok in {"TMOD", "TL0", "TL1", "TH0", "TH1", "SCON", "PCON", "SBUF"}
    case Imm1B => ImmediateByte(tok)
    case Addr2B => WordNumeral(tok) || tok == "B"
    case Imm2B => |tok| >= 1 && tok[0] == '#' && WordNumeral(tok[1..])
    case Rel1B => ByteNumeral(tok) || Label(tok)
    case Bit => ByteNumeral(tok) || PortBit(tok) || tok in {"TF0", "TF1", "TR0", "TR1", "TI", "RI"}
  }

  /** Every numeral begins with a digit: the padding zeros and every digit
      group do. */
  lemma ZeroPaddedStartsWithDigit(d: Digits, s: string)
    requires ZeroPadded(d, s)
    ensures |s| >= 1 && IsDigit(s[0])
  {
    if !DigitsMatch(d, s) {
      assert s[0] == '0';
    }
  }

  lemma NumeralStartsWithDigit(s: string)
    requires ByteNumeral(s) || WordNumeral(s)
    ensures |s| >= 1 && IsDigit(s[0])
  {
    if Suffixed(s, 'H', HexByte) {
      ZeroPaddedStartsWithDigit(HexByte, s[..|s| - 1]);
    } else if Suffixed(s, 'B', Bin(8)) {
      ZeroPaddedStartsWithDigit(Bin(8), s[..|s| - 1]);
    } else if Suffixed(s, 'D', Dec(3)) {
      ZeroPaddedStartsWithDigit(Dec(3), s[..|s| - 1]);
    } else if ZeroPadded(Dec(3), s) {
      ZeroPaddedStartsWithDigit(Dec(3), s);
    } else if Suffixed(s, 'H', HexWord) {
      ZeroPaddedStartsWithDigit(HexWord, s[..|s| - 1]);
    } else if Suffixed(s, 'B', Bin(16)) {
      ZeroPaddedStartsWithDigit(Bin(16), s[..|s| - 1]);
    } else if Suffixed(s, 'D', Dec(5)) {
      ZeroPaddedStartsWithDigit(Dec(5), s[..|s| - 1]);
    } else {
      ZeroPaddedStartsWithDigit(Dec(5), s);
    }
  }

  /** A token that starts with neither a digit nor a letter, such as `@R0`, is
      no address, no relative target and no bit. */
  lemma NonAlnumStartRejected(tok: string)
    requires |tok| >= 1 && !IsDigit(tok[0]) && !IsUpper(tok[0])
    ensures !Classify(Addr1B, tok) && !Classify(Addr2B, tok)
    ensures !Classify(Rel1B, tok) && !Classify(Bit, tok)
  {
    if ByteNumeral(tok) || WordNumeral(tok) {
      NumeralStartsWithDigit(tok);
    }
  }

  /** `Rn` is exactly `R0` to `R7`; `@Ri` exactly `@R0` and `@R1`. */
  lemma RegisterTags(tok: string)
    ensures Classify(Rn, tok) <==> tok in {"R0", "R1", "R2", "R3", "R4", "R5", "R6", "R7"}
    ensures Classify(AtRi, tok) <==> tok in {"@R0", "@R1"}
  {
    if |tok| == 2 && tok[0] == 'R' && IsOctalDigit(tok[1]) {
      assert tok == ['R', tok[1]];
    }
    if |tok| == 3 && tok[..2] == "@R" && IsBinDigit(tok[2]) {
      assert tok == ['@', 'R', tok[2]];
    }
  }

  /** The register and flag tags accept their own name and nothing else. */
  lemma LiteralTags(tok: string)
    ensures Classify(A, tok) <==> tok == "A"
    ensures Classify(AB, tok) <==> tok == "AB"
    ensures Classify(C, tok) <==> tok == "C"
    ensures Classify(DPTR, tok) <==> tok == "DPTR"
    ensures Classify(AtDPTR, tok) <==> tok == "@DPTR"
  {
  }

  /** `@A+DPTR` and `@A+PC` allow any number of spaces on either side of
      the plus sign. */
  lemma IndexedTags(left: nat, right: nat)
    ensures Classify(AtAPlusDPTR, "@A" + Spaces(left) + "+" + Spaces(right) + "DPTR")
    ensures Classify(AtAPlusPC, "@A" + Spaces(left) + "+" + Spaces(right) + "PC")
  {
    IndexedFormSpaced(left, right, "DPTR");
    IndexedFormSpaced(left, right, "PC");
  }

  lemma IndexedFormSpaced(left: nat, right: nat, base: string)
    ensures IndexedForm("@A" + Spaces(left) + "+" + Spaces(right) + base, base)
  {
    var mid := Spaces(left) + "+" + Spaces(right);
    SpacesAroundPlus(left, right);
    var s := "@A" + mid + base;
    assert s == "@A" + Spaces(left) + "+" + Spaces(right) + base;
    assert s[..2] == "@A";
    assert s[|s| - |base|..] == base;
    assert s[2..|s| - |base|] == mid;
  }

  /** Any number of spaces on either side of a plus sign. */
  lemma {:induction false} SpacesAroundPlus(left: nat, right: nat)
    ensures SpacedPlus(Spaces(left) + "+" + Spaces(right))
  {
    var s := Spaces(left) + "+" + Spaces(right);
    if left == 0 {
      assert s == "+" + Spaces(right);
      assert s[1..] == Spaces(right);
    } else {
      SpacesAroundPlus(left - 1, right);
      assert s == " " + (Spaces(left - 1) + "+" + Spaces(right));
      assert s[1..] == Spaces(left - 1) + "+" + Spaces(right);
    }
  }

  function Spaces(n: nat): (s: string)
    ensures |s| == n && AllSpaces(s)
  {
    if n == 0 then "" else " " + Spaces(n - 1)
  }
}
