/** The three resolvers of src/main.rs: the addressing modes of a line's
    operands (`get_modes`), the bytes it occupies (`get_memory`) and the
    machine cycles it takes (`get_cycle`). Each normalises the line, looks the
    mnemonic up and tries the alternatives in table order, pairing tags with
    tokens as `zip` does; the first alternative whose pairs all classify
    decides. A `.unwrap()` on a missing addressing mode is a panic, recorded
    as `Panicked`. */
module Resolver {
  import opened Wrappers
  import opened Text
  import opened Classifier
  import opened Addressing
  import opened Parser
  import opened Matching

  /** What trying one alternative, or a list of them, comes to in
      `get_modes` and `get_memory`: a pair failed to classify, every pair
      classified with these modes, or a classified tag had no mode. */
  datatype Scan = NoMatch | Matched(modes: seq<AddressingMode>) | Panic

  /** The modes of the pairs from the `k`th on. */
  function AltModes(tags: seq<Tag>, toks: seq<string>, k: nat): (s: Scan)
    requires k <= Min(|tags|, |toks|)
    ensures s.Matched? ==> |s.modes| == Min(|tags|, |toks|) - k
                           && forall m | k <= m < Min(|tags|, |toks|) ::
                                Classify(tags[m], toks[m]) && AddrMode(tags[m]) == Some(s.modes[m - k])
    ensures s.NoMatch? ==> exists m | k <= m < Min(|tags|, |toks|) :: !Classify(tags[m], toks[m])
    ensures s.Panic? ==> exists m | k <= m < Min(|tags|, |toks|) ::
                           Classify(tags[m], toks[m]) && AddrMode(tags[m]).None?
    decreases Min(|tags|, |toks|) - k
  {
    if k == Min(|tags|, |toks|) then Matched([])
    else if !Classify(tags[k], toks[k]) then NoMatch
    else match AddrMode(tags[k])
      case None => Panic
      case Some(mode) => Prepend([mode], AltModes(tags, toks, k + 1))
  }

  /** Modes collected before the rest of the pairs are tried. */
  function Prepend(ms: seq<AddressingMode>, s: Scan): Scan
  {
    if s.Matched? then Matched(ms + s.modes) else s
  }

  /** The first alternative from the `i`th on that does not fail to
      classify decides. */
  function ScanModes(alts: seq<seq<Tag>>, toks: seq<string>, i: nat): Scan
    requires i <= |alts|
    decreases |alts| - i
  {
    if i == |alts| then NoMatch
    else match AltModes(alts[i], toks, 0)
      case NoMatch => ScanModes(alts, toks, i + 1)
      case s => s
  }

  /** The tags of the pairs `zip` forms: as many as there are tokens, at most. */
  function Zipped(tags: seq<Tag>, toks: seq<string>): (z: seq<Tag>)
    ensures |z| == Min(|tags|, |toks|)
  {
    tags[..Min(|tags|, |toks|)]
  }

  // ---------------------------------------------------------------------
  // What the resolvers compute

  /** What `get_modes` makes of a line's shape once the validity check has
      passed: a blank or skipped line has no operands, an instruction the
      modes of its first alternative that does not fail to classify. */
  function ModesOfShape(shape: LineShape): Outcome<seq<AddressingMode>, ParseError>
  {
    match shape
    case Blank => Returned(Ok([]))
    case Skipped => Returned(Ok([]))
    case Unknown(_) => Returned(Err(ParseError))
    case Known(_, rawOperands, alts) => ModesOfScan(ScanModes(alts, Operands(rawOperands), 0))
  }

  /** No alternative classifies: an error; one does: its modes; a classified
      tag has no mode: a panic. */
  function ModesOfScan(scan: Scan): Outcome<seq<AddressingMode>, ParseError>
  {
    match scan
    case NoMatch => Returned(Err(ParseError))
    case Matched(ms) => Returned(Ok(ms))
    case Panic => Panicked
  }

  /** What `get_memory` makes of a line's shape once the validity check has
      passed: a blank or skipped line takes no bytes, an instruction its
      opcode byte plus the bytes of its operands' modes. */
  function MemoryOfShape(shape: LineShape): Outcome<nat, ParseError>
  {
    match shape
    case Blank => Returned(Ok(0))
    case Skipped => Returned(Ok(0))
    case Unknown(_) => Returned(Err(ParseError))
    case Known(_, rawOperands, alts) => MemoryOfScan(ScanModes(alts, Operands(rawOperands), 0))
  }

  /** As `ModesOfScan`, with the opcode byte and the operands' bytes in
      place of the modes. */
  function MemoryOfScan(scan: Scan): Outcome<nat, ParseError>
  {
    match scan
    case NoMatch => Returned(Err(ParseError))
    case Matched(ms) => Returned(Ok(SumBytes(ms) + 1))
    case Panic => Panicked
  }

  /** What `get_cycle` makes of a line's shape: the matcher sees the mnemonic
      and the tags of the zipped pairs of the first alternative that
      classifies. */
  function CycleOfShape(shape: LineShape, m: Matcher): Result<nat, MatchError>
  {
    match shape
    case Blank => Ok(0)
    case Skipped => Ok(0)
    case Unknown(_) => Err(MatchError)
    case Known(mnemonic, rawOperands, alts) =>
      var toks := Operands(rawOperands);
      match FirstMatch(alts, toks)
      case None => Err(MatchError)
      case Some(i) => DoMatch(m, Instruction(mnemonic, TagNames(Zipped(alts[i], toks))))
  }

  /** `get_modes`: the validity check, then the modes. */
  function ModesOf(raw: string): Outcome<seq<AddressingMode>, ParseError>
  {
    var shape := ShapeOf(raw);
    if IsValidShape(shape).Err? then Returned(Err(ParseError)) else ModesOfShape(shape)
  }

  /** `get_memory`: the validity check, then the bytes. */
  function MemoryOf(raw: string): Outcome<nat, ParseError>
  {
    var shape := ShapeOf(raw);
    if IsValidShape(shape).Err? then Returned(Err(ParseError)) else MemoryOfShape(shape)
  }

  /** `get_cycle`: no validity check. */
  function CycleOf(raw: string, m: Matcher): Result<nat, MatchError>
  {
    CycleOfShape(ShapeOf(raw), m)
  }

  // ---------------------------------------------------------------------
  // The resolvers

  method GetModes(raw: string) returns (r: Outcome<seq<AddressingMode>, ParseError>)
    ensures r == ModesOf(raw)
  {
    var valid := IsValid(raw);
    if valid.Err? {
      return Returned(Err(ParseError));
    }
    var line := StripLine(raw);
    if line == "" {
      return Returned(Ok([]));
    }
    var (instruction, rawOperands) := SplitMnemonic(line);
    if IsSkipped(line) {
      return Returned(Ok([]));
    }
    var entry := Lookup(instruction);
    if entry.None? {
      return Returned(Err(ParseError));
    }
    var allOperands := Alternatives(entry.value);
    assert ShapeOf(raw) == Known(instruction, rawOperands, allOperands);
    var scan := CollectModes(allOperands, Operands(rawOperands));
    r := ModesOfScan(scan);
  }

  method GetMemory(raw: string) returns (r: Outcome<nat, ParseError>)
    ensures r == MemoryOf(raw)
  {
    var valid := IsValid(raw);
    if valid.Err? {
      return Returned(Err(ParseError));
    }
    var line := StripLine(raw);
    if line == "" {
      return Returned(Ok(0));
    }
    var (instruction, rawOperands) := SplitMnemonic(line);
    if IsSkipped(line) {
      return Returned(Ok(0));
    }
    var entry := Lookup(instruction);
    if entry.None? {
      return Returned(Err(ParseError));
    }
    var allOperands := Alternatives(entry.value);
    assert ShapeOf(raw) == Known(instruction, rawOperands, allOperands);
    var scan := CollectModes(allOperands, Operands(rawOperands));
    r := MemoryOfScan(scan);
  }

  method GetCycle(raw: string, matcher: Matcher) returns (r: Result<nat, MatchError>)
    ensures r == CycleOf(raw, matcher)
  {
    var line := StripLine(raw);
    if line == "" {
      return Ok(0);
    }
    var (instruction, rawOperands) := SplitMnemonic(line);
    if IsSkipped(line) {
      return Ok(0);
    }
    var entry := Lookup(instruction);
    if entry.None? {
      return Err(MatchError);
    }
    var allOperands := Alternatives(entry.value);
    assert ShapeOf(raw) == Known(instruction, rawOperands, allOperands);
    var tags := CollectTags(allOperands, Operands(rawOperands));
    match tags
    case None => r := Err(MatchError);
    case Some(opModes) => r := DoMatch(matcher, Instruction(instruction, opModes));
  }

  /** The loops of `get_modes` and `get_memory`: alternative by alternative,
      until one does not fail to classify. */
  method CollectModes(allOperands: seq<seq<Tag>>, operands: seq<string>) returns (s: Scan)
    ensures s == ScanModes(allOperands, operands, 0)
  {
    var i := 0;
    while i < |allOperands|
      invariant 0 <= i <= |allOperands|
      invariant ScanModes(allOperands, operands, 0) == ScanModes(allOperands, operands, i)
    {
      var alt := CollectAlternative(allOperands[i], operands);
      if !alt.NoMatch? {
        return alt;
      }
      i := i + 1;
    }
    return NoMatch;
  }

  /** The inner loop: pair by pair, collecting modes, until a pair fails to
      classify or a classified tag has no mode. */
  method CollectAlternative(ops: seq<Tag>, operands: seq<string>) returns (s: Scan)
    ensures s == AltModes(ops, operands, 0)
  {
    var opModes: seq<AddressingMode> := [];
    var n := Min(|ops|, |operands|);
    var k := 0;
    while k < n
      invariant 0 <= k <= n
      invariant AltModes(ops, operands, 0) == Prepend(opModes, AltModes(ops, operands, k))
    {
      if !Classify(ops[k], operands[k]) {
        return NoMatch;
      }
      match AddrMode(ops[k])
      case None =>
        return Panic;
      case Some(mode) =>
        assert forall ms :: (opModes + [mode]) + ms == opModes + ([mode] + ms);
        opModes := opModes + [mode];
      k := k + 1;
    }
    assert opModes + [] == opModes;
    return Matched(opModes);
  }

  /** The loops of `get_cycle`: alternative by alternative, collecting the
      names of the tags whose pairs classify. */
  method CollectTags(allOperands: seq<seq<Tag>>, operands: seq<string>) returns (r: Option<seq<string>>)
    ensures r == match FirstMatch(allOperands, operands)
                 case None => None
                 case Some(i) => Some(TagNames(Zipped(allOperands[i], operands)))
  {
    var i := 0;
    while i < |allOperands|
      invariant 0 <= i <= |allOperands|
      invariant forall j | 0 <= j < i :: !ZipMatches(allOperands[j], operands)
    {
      var ops := allOperands[i];
      var opModes: seq<string> := [];
      var isMatch := true;
      var n := Min(|ops|, |operands|);
      var k := 0;
      while k < n
        invariant 0 <= k <= n
        invariant opModes == TagNames(ops[..k])
        invariant forall m | 0 <= m < k :: Classify(ops[m], operands[m])
      {
        if !Classify(ops[k], operands[k]) {
          isMatch := false;
          break;
        }
        assert ops[..k + 1] == ops[..k] + [ops[k]];
        opModes := opModes + [TagName(ops[k])];
        k := k + 1;
      }
      if isMatch {
        FirstMatchIsEarliest(allOperands, operands, i);
        return Some(opModes);
      }
      i := i + 1;
    }
    return None;
  }

  // ---------------------------------------------------------------------
  // What the resolvers come to

  /** The modes of tags none of which is `AB`. */
  function ModesOfTags(tags: seq<Tag>): (ms: seq<AddressingMode>)
    requires AB !in tags
    ensures |ms| == |tags| && forall k | 0 <= k < |tags| :: AddrMode(tags[k]) == Some(ms[k])
  {
    if tags == [] then [] else [AddrMode(tags[0]).value] + ModesOfTags(tags[1..])
  }

  /** What `get_modes` computes once the validity check has passed, stated
      through the alternative the validity check selects: the modes of its
      zipped tags, or a panic when one of them is `AB`. */
  function SelectedModes(shape: LineShape): Outcome<seq<AddressingMode>, ParseError>
  {
    match shape
    case Blank => Returned(Ok([]))
    case Skipped => Returned(Ok([]))
    case Unknown(_) => Returned(Err(ParseError))
    case Known(_, rawOperands, alts) =>
      var toks := Operands(rawOperands);
      match FirstMatch(alts, toks)
      case None => Returned(Err(ParseError))
      case Some(i) =>
        var tags := Zipped(alts[i], toks);
        if AB in tags then Panicked else Returned(Ok(ModesOfTags(tags)))
  }

  /** One alternative that holds `AB` only alone fails exactly when a zipped
      pair fails to classify; otherwise it panics on `AB` or yields the
      modes of its zipped tags. */
  lemma AltModesSelected(tags: seq<Tag>, toks: seq<string>)
    requires |tags| == 1 || AB !in tags
    ensures AltModes(tags, toks, 0) ==
              if !ZipMatches(tags, toks) then NoMatch
              else if AB in Zipped(tags, toks) then Panic
              else Matched(ModesOfTags(Zipped(tags, toks)))
  {
    var z := Zipped(tags, toks);
    var s := AltModes(tags, toks, 0);
    assert forall m | 0 <= m < |z| :: z[m] == tags[m];
    if AB in z {
      assert |tags| == 1 && |toks| >= 1 && tags == [AB];
    } else {
      forall m | 0 <= m < |z| ensures AddrMode(tags[m]).Some? {
        AddrModeRoles(tags[m]);
      }
      if s.Matched? {
        assert s.modes == ModesOfTags(z);
      }
    }
  }

  /** The loop of `get_modes` over the alternatives, in a table that puts
      `AB` only alone, comes to the alternative the validity check selects. */
  lemma {:induction false} ScanModesSelected(alts: seq<seq<Tag>>, toks: seq<string>, i: nat)
    requires i <= |alts| && ABAlone(alts)
    ensures ScanModes(alts, toks, i) ==
              match FirstMatchFrom(alts, toks, i)
              case None => NoMatch
              case Some(j) =>
                if AB in Zipped(alts[j], toks) then Panic
                else Matched(ModesOfTags(Zipped(alts[j], toks)))
    decreases |alts| - i
  {
    if i < |alts| {
      assert |alts[i]| == 1 || AB !in alts[i];
      AltModesSelected(alts[i], toks);
      if ZipMatches(alts[i], toks) {
        assert FirstMatchFrom(alts, toks, i) == Some(i);
      } else {
        assert FirstMatchFrom(alts, toks, i) == FirstMatchFrom(alts, toks, i + 1);
        ScanModesSelected(alts, toks, i + 1);
      }
    }
  }

  /** The modes of a shape whose alternatives put `AB` only alone, as the
      table does, are the modes of the alternative the validity check
      selects. */
  lemma ShapeModesSelected(shape: LineShape)
    requires shape.Known? ==> ABAlone(shape.alternatives)
    ensures ModesOfShape(shape) == SelectedModes(shape)
  {
    if shape.Known? {
      ScanModesSelected(shape.alternatives, Operands(shape.rawOperands), 0);
    }
  }

  /** `get_modes` is the validity check followed by the modes of the
      alternative it selects. */
  lemma ModesOfSelected(raw: string)
    ensures ModesOf(raw) ==
              if IsValidOf(raw).Err? then Returned(Err(ParseError)) else SelectedModes(ShapeOf(raw))
  {
    var shape := ShapeOf(raw);
    if shape.Known? {
      TableABAlone(Lookup(shape.mnemonic).value);
    }
    ShapeModesSelected(shape);
  }

  /** Blank and skipped lines have no operands, no bytes and no cycles; an
      unknown mnemonic fails all three resolvers. */
  lemma PreludeResults(raw: string, m: Matcher)
    ensures ShapeOf(raw).Blank? || ShapeOf(raw).Skipped? ==>
              ModesOf(raw) == Returned(Ok([])) && MemoryOf(raw) == Returned(Ok(0)) && CycleOf(raw, m) == Ok(0)
    ensures ShapeOf(raw).Unknown? ==>
              ModesOf(raw) == Returned(Err(ParseError)) && MemoryOf(raw) == Returned(Err(ParseError))
              && CycleOf(raw, m) == Err(MatchError)
  {
    IsValidPrelude(raw);
  }

  /** A mnemonic without operands fails all three resolvers, even when the
      validity check accepts the line: there is no alternative to select. */
  lemma ZeroOperandFails(raw: string, m: Matcher)
    requires ShapeOf(raw).Known? && ShapeOf(raw).alternatives == []
    ensures ModesOf(raw) == Returned(Err(ParseError)) && MemoryOf(raw) == Returned(Err(ParseError))
    ensures CycleOf(raw, m) == Err(MatchError)
  {
  }

  /** `get_modes` fails exactly when the validity check fails or the
      mnemonic takes no operands. */
  lemma ModesErrors(raw: string)
    ensures ModesOf(raw) == Returned(Err(ParseError)) <==>
              IsValidOf(raw).Err? || (ShapeOf(raw).Known? && ShapeOf(raw).alternatives == [])
  {
    ModesOfSelected(raw);
  }

  /** `get_memory` panics and fails where `get_modes` does, and otherwise
      counts the opcode byte and the bytes of the modes `get_modes` finds. */
  lemma MemoryFromModes(raw: string)
    ensures MemoryOf(raw) == MemoryOfModes(ModesOf(raw), ShapeOf(raw).Known?)
  {
    var shape := ShapeOf(raw);
    var valid := IsValidOf(raw);
    assert ModesOf(raw) == if valid.Err? then Returned(Err(ParseError)) else ModesOfShape(shape);
    assert MemoryOf(raw) == if valid.Err? then Returned(Err(ParseError)) else MemoryOfShape(shape);
    MemoryShapeFromModes(shape);
  }

  lemma MemoryShapeFromModes(shape: LineShape)
    ensures MemoryOfShape(shape) == MemoryOfModes(ModesOfShape(shape), shape.Known?)
  {
    if shape.Known? {
      MemoryScanFromModes(ScanModes(shape.alternatives, Operands(shape.rawOperands), 0));
    }
  }

  /** The bytes of a scan are those of its modes. */
  lemma MemoryScanFromModes(scan: Scan)
    ensures MemoryOfScan(scan) == MemoryOfModes(ModesOfScan(scan), true)
  {
  }

  /** The bytes that go with an outcome of `get_modes`. */
  function MemoryOfModes(modes: Outcome<seq<AddressingMode>, ParseError>, known: bool): Outcome<nat, ParseError>
  {
    match modes
    case Panicked => Panicked
    case Returned(Err(e)) => Returned(Err(e))
    case Returned(Ok(ms)) => Returned(Ok(if known then SumBytes(ms) + 1 else 0))
  }

  /** A line takes no bytes exactly when it is blank or skipped, and an
      instruction at most two bytes per zipped operand beyond its opcode. */
  lemma MemoryBounds(raw: string)
    requires MemoryOf(raw).Returned? && MemoryOf(raw).result.Ok?
    ensures var n := MemoryOf(raw).result.value;
            var shape := ShapeOf(raw);
            (n == 0 <==> shape.Blank? || shape.Skipped?)
            && (shape.Known? ==> n <= 1 + 2 * |Operands(shape.rawOperands)|)
  {
    var shape := ShapeOf(raw);
    assert MemoryOf(raw) == MemoryOfShape(shape);
    if shape.Known? {
      TableABAlone(Lookup(shape.mnemonic).value);
    }
    ShapeMemoryBounds(shape);
  }

  /** `MemoryBounds` on the shape of the line. */
  lemma ShapeMemoryBounds(shape: LineShape)
    requires shape.Known? ==> ABAlone(shape.alternatives)
    requires MemoryOfShape(shape).Returned? && MemoryOfShape(shape).result.Ok?
    ensures var n := MemoryOfShape(shape).result.value;
            (n == 0 <==> shape.Blank? || shape.Skipped?)
            && (shape.Known? ==> n <= 1 + 2 * |Operands(shape.rawOperands)|)
  {
    if shape.Known? {
      MemoryShapeFromModes(shape);
      ShapeModesSelected(shape);
      var toks := Operands(shape.rawOperands);
      var i := FirstMatch(shape.alternatives, toks).value;
      var tags := Zipped(shape.alternatives[i], toks);
      assert ModesOfShape(shape) == Returned(Ok(ModesOfTags(tags)));
    }
  }

  /** Although `get_cycle` skips the validity check, it fails on exactly the
      lines on which `get_modes` and `get_memory` fail. */
  lemma CycleFailsWithModes(raw: string, m: Matcher)
    ensures CycleOf(raw, m).Err? <==> ModesOf(raw) == Returned(Err(ParseError))
    ensures CycleOf(raw, m).Err? <==> MemoryOf(raw) == Returned(Err(ParseError))
  {
    var shape := ShapeOf(raw);
    if shape.Known? {
      TableABAlone(Lookup(shape.mnemonic).value);
    }
    ShapeCycleFails(shape, m);
    MemoryShapeFromModes(shape);
  }

  /** `CycleFailsWithModes` on the shape of the line. */
  lemma ShapeCycleFails(shape: LineShape, m: Matcher)
    requires shape.Known? ==> ABAlone(shape.alternatives)
    ensures CycleOfShape(shape, m).Err? <==>
              IsValidShape(shape).Err? || ModesOfShape(shape) == Returned(Err(ParseError))
  {
    ShapeModesSelected(shape);
  }

  /** With the matcher of `make_matcher`, a blank or skipped line takes no
      cycle and an instruction one, two or four. */
  lemma CycleValues(raw: string)
    requires CycleOf(raw, MakeMatcher()).Ok?
    ensures var c := CycleOf(raw, MakeMatcher()).value;
            c in {0, 1, 2, 4} && (c == 0 <==> ShapeOf(raw).Blank? || ShapeOf(raw).Skipped?)
  {
    var shape := ShapeOf(raw);
    if shape.Known? {
      var toks := Operands(shape.rawOperands);
      var i := FirstMatch(shape.alternatives, toks).value;
      CycleBounds(Instruction(shape.mnemonic, TagNames(Zipped(shape.alternatives[i], toks))));
    }
  }

  /** A shape whose alternatives put `AB` only alone and whose selected
      alternative has no `AB` among its zipped tags has the modes of those
      tags. */
  lemma ResolvedModes(shape: LineShape, i: nat)
    requires shape.Known? && ABAlone(shape.alternatives)
    requires FirstMatch(shape.alternatives, Operands(shape.rawOperands)) == Some(i)
             && AB !in Zipped(shape.alternatives[i], Operands(shape.rawOperands))
    ensures ModesOfShape(shape) == Returned(Ok(ModesOfTags(Zipped(shape.alternatives[i], Operands(shape.rawOperands)))))
  {
    ShapeModesSelected(shape);
  }
}
