# asm_table instruction resolution, modelled in Dafny

`asm_table` reads an 8051 assembly file and reports, for each line:

- its operands' addressing modes;
- the bytes the instruction occupies;
- the machine cycles it takes.

This project models the engine behind those three answers and proves what it promises.

The engine works in these steps:

1. The **line normaliser** drops the label up to the first `:` and the comment from the first `;`, then trims.
2. It splits the mnemonic off at the first space, then splits the operand text on `,` and trims each token.
3. The **skip gate** passes over `END`, `ORG…`, `DB…` and `…EQU…`.
4. It looks the mnemonic up in the **instruction table**, an ordered list of operand-tag alternatives per mnemonic.
5. The **operand classifier** checks a token against a tag. The source uses one anchored regular expression per tag; here each is a predicate on the token text.
6. The **first-match selector** tries the alternatives in table order.
   - It pairs tags with tokens as `zip` does, stopping at the shorter list.
   - The first alternative whose pairs all classify wins.
7. From the winner, the three resolvers compute:
   - `get_modes`: the tags' addressing modes;
   - `get_memory`: one opcode byte plus `bytes_required` of each mode;
   - `get_cycle`: the mnemonic and the tag names, passed to the **cycle rule chain**.

The rule chain is built from a unit matcher that answers one cycle. Each `.inst`/`.specific` rule wraps the matcher built so far, so the rule registered last is consulted first.

Modules, in dependency order:

- `Wrappers`: `Option`, `Result`, and `Outcome`, which is a `Result` or a panic.
- `Text`: Rust's `find`, `split_once`, `split` and `trim` on strings.
- `Classifier`: the tags and `get_regex` as predicates.
- `Addressing`: src/instruction.rs.
- `Parser`: the table, the skip list, the normaliser and `is_valid`.
- `Matching`: src/matching.rs, as a datatype and as a rule list.
- `Resolver`: `get_modes`, `get_memory` and `get_cycle` of src/main.rs.
- `Scenarios`: the unit tests of src/main.rs and a few edge cases.

How the model is built:

- `is_valid` and the three resolvers are methods whose nested `while` loops mirror the source's `for` loops, with the `is_match` flag, `break` and early returns. Each method is proved equal to a pure function (`IsValidOf`, `ModesOf`, `MemoryOf`, `CycleOf`). The properties are proved about those functions.
- A `.unwrap()` on the missing addressing mode of `AB` is the outcome `Panicked`.
- The two unit error types are the one-value datatypes `ParseError` and `MatchError`.

## Model

| member | source | states |
|---|---|---|
| Text.Find | src/parser.rs:130 | the index found holds the character and no earlier index does; none is found exactly when the text lacks it (`contains`) |
| Text.SplitOnce | src/parser.rs:131-137 | `split_once` fails exactly when the separator is absent; otherwise the text is before + separator + after, with no separator before it |
| Text.Split | src/parser.rs:161 | `split` gives at least one piece, no piece holds the separator, and joining the pieces with it gives the text back |
| Text.SplitCount | src/parser.rs:161 | a text with k separators splits into k + 1 pieces |
| Text.SplitJoin | src/parser.rs:161 | splitting a join of separator-free pieces gives those pieces back |
| Text.JoinInjective | src/parser.rs:161 | two separator-free splittings of one text are equal |
| Text.Trim | src/parser.rs:138-140 | `trim` gives a contiguous piece of the text that is empty or has non-whitespace characters at both ends |
| Text.TrimUnique | src/parser.rs:138-140 | for any cut of the text into leading whitespace, a core that is empty or has non-whitespace ends, and trailing whitespace, `Trim` gives that core |
| Text.TrimIdempotent | src/parser.rs:138-140 | trimming a trimmed token changes nothing |
| Classifier.TagNameInjective | src/parser.rs:66-110 | distinct tags have distinct spellings |
| Classifier.RegisterTags | src/parser.rs:78-79 | `Rn` accepts exactly `R0`..`R7` and `@Ri` exactly `@R0` and `@R1` |
| Classifier.LiteralTags | src/parser.rs:68-77 | `A`, `AB`, `C`, `DPTR` and `@DPTR` accept their own text and nothing else |
| Classifier.IndexedTags | src/parser.rs:72-76 | `@A+DPTR` and `@A+PC` accept any number of spaces on either side of `+` |
| Classifier.SpacesAroundPlus | src/parser.rs:74 | ` *\+ *` matches a plus with any spaces before and after it |
| Classifier.NumeralStartsWithDigit | src/parser.rs:82-109 | every one- and two-byte numeral, padded or suffixed, starts with a digit |
| Classifier.ZeroPaddedStartsWithDigit | src/parser.rs:82-109 | the zero padding `0*` and every digit group start with a digit |
| Classifier.NonAlnumStartRejected | src/parser.rs:80-110 | a token that starts with neither a digit nor a capital is no address, relative target or bit |
| Addressing.BytesRequired | src/instruction.rs:32-41 | the width is at most 2; it is 0 exactly for the register, indirect, indexed and implied modes; it is 2 exactly for two-byte immediates and addresses |
| Addressing.SumBytes | src/main.rs:254-257 | the operand bytes are at most two per mode |
| Addressing.SumBytesAppend | src/main.rs:254-257 | the byte sum splits over concatenation |
| Addressing.AddrModeRoles | src/instruction.rs:44-61 | the tag-to-mode map in full: which tags are register-direct, indirect, indexed, direct or immediate of one or two bytes; only `AB` has no mode; no tag is `Implied` |
| Addressing.TagBytes | src/instruction.rs:44-61 | two bytes exactly for `addr2B` and `imm2B`; one exactly for `addr1B`, `imm1B`, `rel1B` and `bit` |
| Parser.LookupName | src/parser.rs:5-50 | every mnemonic of the table is found under its own spelling |
| Parser.TableABAlone | src/parser.rs:5-50 | in every mnemonic's alternatives `AB` never sits beside another tag |
| Parser.EquFrom | src/parser.rs:120 | true exactly when `EQU` occurs from the given index on with a character after it |
| Parser.SkipShapes | src/parser.rs:115-122 | a line is skipped exactly when it is `END`, `ORG` or `DB` followed by more text, or has `EQU` with text on each side, and has no newline |
| Parser.StripLineCutsAlways | src/parser.rs:130-141 | the `contains([':', ';'])` shortcut changes nothing: every line strips to the trimmed text after its first `:` and before the next `;` |
| Parser.StripLineSegment | src/parser.rs:130-141 | the stripped line is the trimmed text between the first `:` and the first `;` after it |
| Parser.FirstOccurrence | src/parser.rs:131-137 | `split_once` splits at the first occurrence of the separator |
| Parser.TrimKeepsAbsent | src/parser.rs:138 | trimming adds no character |
| Parser.StripLineClean | src/parser.rs:130-141 | the stripped line has no `;` and is already trimmed |
| Parser.SplitMnemonic | src/parser.rs:145-149 | the mnemonic has no space; with a space the line is mnemonic + space + operand text, without one the operand text is empty |
| Parser.Operands | src/parser.rs:161 | one token more than commas; each token is comma-free and trimmed |
| Parser.EmptyOperandText | src/parser.rs:148-161 | empty operand text gives exactly one token, the empty one |
| Parser.FirstMatchFrom | src/parser.rs:162-173 | the index found has all zipped pairs classifying and no earlier one from the start index does; none found means none does |
| Parser.FirstMatch | src/parser.rs:162-174 | the first alternative in table order whose zipped pairs all classify, or none when no alternative's do |
| Parser.FirstMatchIsEarliest | src/parser.rs:162-173 | a matching alternative with no matching one before it is the one selected |
| Parser.LaterAlternativesIgnored | src/parser.rs:170-172 | replacing the alternatives after the selected one does not change the selection |
| Parser.ShapeOfLine | src/parser.rs:142-153 | blank exactly for the empty line; skipped exactly for a non-empty line of the skip list; otherwise the mnemonic and operand text of the split, found in the table or not |
| Parser.ShapeOf | src/parser.rs:130-153 | the same for a raw line, through the normaliser |
| Parser.IsValid | src/parser.rs:124-175 | the method with its loops returns the verdict `IsValidOf` of the line |
| Parser.AnyAlternativeMatches | src/parser.rs:161-174 | the nested loops with the `is_match` flag and `break` find a match exactly when `FirstMatch` selects one |
| Parser.IsValidPrelude | src/parser.rs:142-153 | blank and skipped lines are valid; an unknown mnemonic is not |
| Parser.IsValidZeroOperand | src/parser.rs:154-160 | a mnemonic without alternatives is valid exactly when its operand text trims to nothing |
| Parser.IsValidSomeAlternative | src/parser.rs:161-174 | any other known mnemonic is valid exactly when some alternative's zipped pairs all classify |
| Matching.DoMatch | src/matching.rs:69-95 | a chain built on the unit never returns an error |
| Matching.BuildRulesOf | src/matching.rs:19-36 | building a matcher from its registration list gives the matcher back |
| Matching.RulesOfBuild | src/matching.rs:19-36 | the registration list of a built matcher is the list it was built from |
| Matching.LastApplicable | src/matching.rs:69-91 | the last registered rule that applies, with none after it applying, or none when no rule applies |
| Matching.DoMatchIsLastRule | src/matching.rs:69-95 | the nested matcher answers what scanning its rule list from last to first decides, with 1 when no rule applies |
| Matching.AgreeingRules | src/matching.rs:69-95 | when every applicable rule agrees on c, the answer is c if one applies and 1 otherwise |
| Matching.SameApplicableRules | src/matching.rs:69-91 | two rule lists in which the same positions apply, with equal rules there, decide alike |
| Matching.RuleShapes | src/matching.rs:97-136 | `make_matcher`'s form rules are two-cycle rules for `INC`, `ANL`, `ORL`, `XRL` and `MOV`; its mnemonic rules give 4 to `MUL`/`DIV` and 2 to the others; the two groups name no common mnemonic |
| Matching.MnemonicRuleDecides | src/matching.rs:114-135 | each `.inst` mnemonic gets its rule's cycle whatever its operands: 4 for `MUL` and `DIV`, 2 for the jumps, calls, returns, stack and external moves |
| Matching.FormRuleDecides | src/matching.rs:99-113 | each `.specific` mnemonic with exactly its listed tags takes 2 cycles (`INC DPTR`, `MOV DPTR, imm2B` and the others) |
| Matching.NoRuleOneCycle | src/matching.rs:93-95 | an instruction no rule applies to falls through to the unit: 1 cycle |
| Matching.UnruledMnemonic | src/matching.rs:97-136 | a mnemonic no rule names (`SETB`, `CLR`, `ADD`, …) takes 1 cycle whatever its operands |
| Matching.CycleBounds | src/matching.rs:97-136 | every instruction takes 1, 2 or 4 cycles under `make_matcher` |
| Matching.TagNames | src/main.rs:309 | one spelling per tag, in order: the operand list the matcher sees |
| Matching.TagOfName | src/parser.rs:68-109 | the inverse of the tag spelling: it finds the tag spelled so, and every tag spelled so |
| Matching.DirectRuleNeverApplies | src/matching.rs:109 | the rule for `MOV @Ri, direct` applies to no instruction whose operands are tag names |
| Matching.DirectRuleIsDead | src/matching.rs:109 | as written, that rule lists `direct`, which is no tag, and `MOV` with `@Ri, addr1B` takes 1 cycle |
| Matching.IntendedFormRulesLive | src/matching.rs:99-113 | with `addr1B` for `direct`, every form rule lists only tags |
| Matching.IntendedIndirectMove | src/matching.rs:109 | with `addr1B` for `direct`, `MOV @Ri, addr1B` takes 2 cycles |
| Matching.IntendedAgreesElsewhere | src/matching.rs:97-136 | the corrected matcher agrees with `make_matcher` on every instruction of tag names except `MOV @Ri, addr1B` |
| Resolver.AltModes | src/main.rs:195-201 | one alternative's pairs from k on: matched with one mode per zipped pair, each pair classifying with its tag's mode; a failure when some pair fails to classify; a panic when a classified tag has no mode |
| Resolver.Zipped | src/main.rs:195 | `zip` keeps as many tags as the shorter list |
| Resolver.GetModes | src/main.rs:158-207 | the method returns `ModesOf` of the line: validity check, prelude, then the loops |
| Resolver.GetMemory | src/main.rs:209-263 | the method returns `MemoryOf` of the line |
| Resolver.GetCycle | src/main.rs:265-320 | the method returns `CycleOf` of the line for the given matcher, without a validity check |
| Resolver.CollectModes | src/main.rs:192-206 | the loop over the alternatives returns `ScanModes`: the first alternative that does not fail to classify decides |
| Resolver.CollectAlternative | src/main.rs:193-204 | the pair loop with its `op_modes` pushes and `unwrap` returns `AltModes` of the alternative |
| Resolver.CollectTags | src/main.rs:301-319 | the loops of `get_cycle` return the tag names of the zipped pairs of the alternative `FirstMatch` selects, or nothing |
| Resolver.ModesOfTags | src/main.rs:200 | one mode per tag, each the tag's entry in the mode map |
| Resolver.AltModesSelected | src/main.rs:195-204 | an alternative with `AB` only alone fails exactly when a zipped pair fails to classify; otherwise it panics on `AB` or gives its zipped tags' modes |
| Resolver.ScanModesSelected | src/main.rs:192-206 | the loop over the alternatives comes to the alternative `FirstMatch` selects: its tags' modes, or a panic on `AB` |
| Resolver.ShapeModesSelected | src/main.rs:190-206 | the modes of a line's shape are those of the alternative the validity check selects |
| Resolver.ModesOfSelected | src/main.rs:165-206 | `get_modes` is the validity check followed by the modes of the alternative it selects |
| Resolver.PreludeResults | src/main.rs:179-190 | blank and skipped lines give no modes, 0 bytes and 0 cycles; an unknown mnemonic fails all three resolvers |
| Resolver.ZeroOperandFails | src/main.rs:192-206 | a mnemonic without alternatives fails all three resolvers, even where `is_valid` accepts it |
| Resolver.ModesErrors | src/main.rs:165-206 | `get_modes` fails exactly when the validity check fails or the mnemonic takes no operands |
| Resolver.MemoryFromModes | src/main.rs:209-263 | `get_memory` fails and panics where `get_modes` does; otherwise it is 1 + the bytes of `get_modes`' modes for an instruction, and 0 for a blank or skipped line |
| Resolver.MemoryShapeFromModes | src/main.rs:241-262 | the same on a line's shape |
| Resolver.MemoryScanFromModes | src/main.rs:253-259 | the bytes of one scan are 1 + the bytes of its modes |
| Resolver.MemoryBounds | src/main.rs:230-262 | a successful byte count is 0 exactly for blank and skipped lines, and at most 1 + 2 per operand token |
| Resolver.ShapeMemoryBounds | src/main.rs:241-262 | the same on a line's shape |
| Resolver.CycleFailsWithModes | src/main.rs:265-320 | although `get_cycle` skips the validity check, it fails on exactly the lines on which `get_modes` and `get_memory` fail |
| Resolver.ShapeCycleFails | src/main.rs:299-319 | the same on a line's shape |
| Resolver.CycleValues | src/main.rs:288-319 | under `make_matcher` a successful cycle count is 0, 1, 2 or 4, and 0 exactly for blank and skipped lines |
| Resolver.ResolvedModes | src/main.rs:192-206 | a line whose selected alternative has no `AB` among its zipped tags has those tags' modes |
| Scenarios.LabelledLine | src/parser.rs:130-141 | a line with a label strips to its code after the `:` without comment, trimmed |
| Scenarios.NotSkipped | src/parser.rs:115-122 | a line that is not `END`, does not start with `ORG` or `DB` and has no `Q` is not skipped |
| Scenarios.KnownLine | src/parser.rs:142-153 | a table mnemonic, a space and operand text, shaped so that no skip pattern fits, is an instruction with that operand text and the mnemonic's alternatives |
| Scenarios.BareLine | src/parser.rs:145-153 | a table mnemonic alone, shaped so that no skip pattern fits, is an instruction with empty operand text |
| Scenarios.TokensOf | src/parser.rs:161 | operand text made of comma-free pieces has those pieces, trimmed, as its tokens |
| Scenarios.StrippedInstruction | src/parser.rs:130-141 | `label: mnemonic operands` strips to `mnemonic operands` |
| Scenarios.UnlabelledInstruction | src/parser.rs:139-141 | an instruction without label or comment strips to itself |
| Scenarios.StrippedBare | src/parser.rs:130-141 | `label: mnemonic` strips to the mnemonic |
| Scenarios.TokenAlone | src/parser.rs:161 | a plain token is the only operand of its text |
| Scenarios.TwoTokens | src/parser.rs:161 | `a, b` has the operands `a` and `b` |
| Scenarios.SjmpLine | src/parser.rs:33 | `SJMP target` is the table's relative jump |
| Scenarios.SjmpSelects | src/parser.rs:33 | a label selects `SJMP`'s `rel1B` alternative |
| Scenarios.SjmpCycle | src/matching.rs:131 | `SJMP` takes 2 cycles |
| Scenarios.SjmpModes | src/main.rs:190-206 | `SJMP label` is valid with one direct mode |
| Scenarios.SjmpCycles | src/main.rs:299-319 | `SJMP label` takes 2 cycles |
| Scenarios.SjmpToLabel | src/main.rs:326-344 | `HERE: SJMP HERE`, for any label name and any label target: valid, one direct mode, 2 bytes, 2 cycles |
| Scenarios.SetbLine | src/parser.rs:45 | `SETB flag` is the table's bit set |
| Scenarios.SetbSelects | src/parser.rs:45 | a bit selects `SETB`'s `bit` alternative |
| Scenarios.SetbCycle | src/matching.rs:97-136 | `SETB` takes 1 cycle |
| Scenarios.SetbModes | src/main.rs:190-206 | `SETB bit` is valid with one direct mode |
| Scenarios.SetbCycles | src/main.rs:299-319 | `SETB bit` takes 1 cycle |
| Scenarios.SetbBit | src/main.rs:346-364 | `BACK: SETB TR1`, for any label name and any bit: valid, one direct mode, 2 bytes, 1 cycle |
| Scenarios.ClrLine | src/parser.rs:41 | `CLR bit` is the table's bit clear |
| Scenarios.ClrSelects | src/parser.rs:41 | a bit selects `CLR`'s `bit` alternative |
| Scenarios.ClrCycle | src/matching.rs:97-136 | `CLR` takes 1 cycle |
| Scenarios.ClrModes | src/main.rs:190-206 | `CLR bit` is valid with one direct mode |
| Scenarios.ClrCycles | src/main.rs:299-319 | `CLR bit` takes 1 cycle |
| Scenarios.ClrBit | src/main.rs:366-384 | `CLR P2.0`, for any bit: valid, one direct mode, 2 bytes, 1 cycle |
| Scenarios.MovDptrLine | src/parser.rs:32 | `MOV DPTR, imm` is a move of the table |
| Scenarios.DptrNoAddress | src/parser.rs:82 | `DPTR` is no one-byte address |
| Scenarios.MovBeforeDptr | src/parser.rs:32 | the seven move alternatives before `DPTR, imm2B` all have a first tag that rejects `DPTR` |
| Scenarios.MovDptrSelects | src/parser.rs:32 | `DPTR` and a two-byte immediate select the eighth move alternative |
| Scenarios.MovDptrCycle | src/matching.rs:110 | `MOV` with `DPTR, imm2B` takes 2 cycles |
| Scenarios.MovDptrTags | src/instruction.rs:49-53 | `DPTR, imm2B` has a register-direct and a two-byte immediate mode, 3 bytes with the opcode |
| Scenarios.MovDptrModes | src/main.rs:190-206 | `MOV DPTR, imm` is valid with those modes |
| Scenarios.MovDptrCycles | src/main.rs:299-319 | `MOV DPTR, imm` takes 2 cycles |
| Scenarios.MovDptrShape | src/parser.rs:130-153 | the raw line `MOV DPTR, imm` is that move |
| Scenarios.MovDptrOperands | src/parser.rs:161 | its operands are `DPTR` and the immediate |
| Scenarios.MovDptrImmediate | src/main.rs:386-404 | `MOV DPTR, #200H`, for any two-byte immediate: valid, register-direct and two-byte immediate modes, 3 bytes, 2 cycles |
| Scenarios.LabelAlone | src/main.rs:406-424 | `WAIT:`, for any label name followed by whitespace only: valid, no modes, 0 bytes, 0 cycles, whatever the matcher |
| Scenarios.JnbLine | src/parser.rs:20 | `JNB bit, target` is the table's jump on a clear bit |
| Scenarios.JnbSelects | src/parser.rs:20 | a bit and a label select `JNB`'s only alternative |
| Scenarios.JnbTags | src/instruction.rs:56-57 | a bit and a relative target are both one-byte direct operands |
| Scenarios.JnbCycle | src/matching.rs:123 | `JNB` takes 2 cycles |
| Scenarios.JnbModes | src/main.rs:190-206 | `JNB bit, label` is valid with two direct modes |
| Scenarios.JnbCycles | src/main.rs:299-319 | `JNB bit, label` takes 2 cycles |
| Scenarios.JnbToLabel | src/main.rs:426-444 | `WAIT: JNB TI, WAIT`, for any label name, bit and label: valid, two direct modes, 3 bytes, 2 cycles |
| Scenarios.MulLine | src/parser.rs:37 | `MUL ab` is the table's multiply |
| Scenarios.MulSelects | src/parser.rs:37 | `AB` selects `MUL`'s only alternative |
| Scenarios.MulPanics | src/main.rs:195-201 | `MUL AB` passes the validity check, but its modes and bytes panic at the mode lookup |
| Scenarios.MulCycle | src/matching.rs:114 | `MUL` takes 4 cycles |
| Scenarios.MulCycles | src/main.rs:299-319 | `MUL AB` takes 4 cycles: the cycle resolver asks for no mode |
| Scenarios.MulAccumulator | src/main.rs:200 | a labelled `MUL AB` line: valid and 4 cycles, while `get_modes` and `get_memory` panic |
| Scenarios.DivLine | src/parser.rs:35 | `DIV ab` is the table's divide |
| Scenarios.DivSelects | src/parser.rs:35 | `AB` selects `DIV`'s only alternative |
| Scenarios.DivPanics | src/main.rs:246-251 | `DIV AB` passes the validity check, but its modes and bytes panic at the mode lookup |
| Scenarios.DivCycle | src/matching.rs:115 | `DIV` takes 4 cycles |
| Scenarios.DivCycles | src/main.rs:299-319 | `DIV AB` takes 4 cycles |
| Scenarios.DivAccumulator | src/main.rs:251 | a labelled `DIV AB` line: valid and 4 cycles, while `get_modes` and `get_memory` panic |
| Scenarios.RetLine | src/parser.rs:17 | `RET` is a mnemonic of the table without alternatives |
| Scenarios.RetStripped | src/parser.rs:130-141 | `label: RET` strips to `RET` |
| Scenarios.RetShapeFails | src/main.rs:241-262 | the bare `RET` passes the validity check, yet its modes, bytes and cycles all fail |
| Scenarios.RetFails | src/main.rs:192-206 | a labelled `RET` line: valid, but all three resolvers fail, since the alternative loop never runs |
| Scenarios.JnbBareLine | src/parser.rs:20 | `JNB bit`, written without its target, is still that jump |
| Scenarios.JnbBareSelects | src/main.rs:195 | with the bit alone `zip` stops at one pair, and `JNB`'s alternative is selected |
| Scenarios.JnbBareModes | src/main.rs:191-204 | `JNB bit` is valid with one direct mode, fewer than its alternative's two tags |
| Scenarios.JnbBareCycles | src/main.rs:299-319 | `JNB bit` still takes 2 cycles |
| Scenarios.JnbMissingTarget | src/main.rs:191-204 | a `JNB` line missing its target: valid, one direct mode, 2 bytes instead of 3, and 2 cycles |
| Scenarios.TestLabels | src/main.rs:332-432 | `HERE` and `WAIT` are plain label tokens, and `HERE`, `WAIT` and `BACK` are label names, as the test lines need |
| Scenarios.TestBits | src/main.rs:352-432 | `TR1`, `TI` and `P2.0` are plain tokens that classify as bits |
| Scenarios.ImmediatePlain | src/main.rs:392 | `#200H` is a plain token |
| Scenarios.TestImmediate | src/main.rs:392 | `#200H` classifies as a two-byte immediate |

## Left out

- The command-line interface (src/main.rs:23-156) is not part of this model: argument parsing, file reads, CSV output, column widths, printing and the pause for a key. It is all input, output and formatting.
- No regex engine is modelled. Each pattern of `get_regex` is written out as a predicate on the token, for example leading zeros as `ZeroPadded` and ` *\+ *` as `SpacedPlus`. The `.` of the port-bit pattern is any character but a newline.
- The RON text of the table and its deserialisation (src/parser.rs:5-64) are replaced as follows:
  - the mnemonics are a datatype;
  - `Lookup` maps a spelling to its mnemonic;
  - `Alternatives` gives each mnemonic its tag lists, in the table's order.

  The hash maps `get_regex` and `get_addr_mode_map` become the total functions `Classify` and `AddrMode` over the tag datatype. So the `.unwrap()` of a classifier lookup cannot fail, and the mode lookup fails only for `AB`.
- The `Display` and `Debug` implementations (src/parser.rs:56-60, src/matching.rs:6-12, src/instruction.rs:13-24) are formatting only.
- Closures, `Box<dyn Matcher>` and the `Matcher` trait (src/matching.rs:16-67) are replaced by the `Matcher` datatype. Its `Inst` and `Specific` members are the builders `inst` and `specific`.
- Strings are sequences of characters. Rust's `trim` is modelled through the Unicode White_Space list. Byte-level UTF-8 is not modelled.
- `usize` arithmetic is modelled on unbounded naturals. The sums involved are at most 7, so no overflow is lost.
- SjmpToLabel, SetbBit, ClrBit, MovDptrImmediate, LabelAlone and JnbToLabel are stated for any label name and any operand of the test's kind, not for the test's literal line.
  - TestLabels, TestBits, ImmediatePlain and TestImmediate prove that the test's own tokens meet those preconditions.
  - The literal lines are not instantiated in lemmas of their own.

## Findings

| source | as written | input that shows it | evidently intended | confidence | as-written member | corrected member |
|---|---|---|---|---|---|---|
| src/matching.rs:109 | the form rule for `MOV @Ri` lists the operand `direct`, which no alternative of the table uses (the table calls a direct address `addr1B`), so the rule can never apply | `MOV @R0, 30H` resolves to the tags `@Ri, addr1B`, and `get_cycle` gives 1 cycle | the rule `MOV @Ri, addr1B` (2 cycles), like the other direct-address moves | not executed | Matching.DirectRuleIsDead | Matching.IntendedIndirectMove |

`Matching.IntendedFormRulesLive` shows that every corrected form rule lists only tags. `Matching.IntendedAgreesElsewhere` shows that the corrected matcher changes no other instruction.

The resolvers take the matcher as a parameter, so `CycleOf` and `GetCycle` work with either matcher. The scenarios use `make_matcher` as written.
