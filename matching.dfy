/** The machine-cycle matcher of src/matching.rs: a chain of rules built on
    a unit matcher. Each rule wraps the matcher built so far and answers for
    the instructions it names, passing every other instruction inward, so the
    rule added last is consulted first and the unit's answer of one cycle is
    the fallback. */
module Matching {
  import opened Wrappers
  import opened Classifier
  import opened Addressing

  /** The failure of resolving a cycle count. */
  datatype MatchError = MatchError

  /** One rule of the chain: by mnemonic alone, or by mnemonic and exact
      operand-tag list. */
  datatype Rule =
    | InstRule(name: string, cycle: nat)
    | SpecificRule(name: string, operands: seq<string>, cycle: nat)

  predicate Applies(rule: Rule, input: Instruction)
  {
    match rule
    case InstRule(name, _) => input.name == name
    case SpecificRule(name, operands, _) => input.name == name && input.operands == operands
  }

  /** A matcher: the unit, or a rule wrapped around the matcher it extends. */
  datatype Matcher =
    | Unit
    | WhenInst(inner: Matcher, name: string, cycle: nat)
    | WhenSpecific(inner: Matcher, name: string, operands: seq<string>, cycle: nat)
  {
    /** The builder `inst`: answer `cycle` for every instruction named `name`. */
    function Inst(name: string, cycle: nat): Matcher
    {
      WhenInst(this, name, cycle)
    }

    /** The builder `specific`: answer `cycle` for `name` with exactly these
        operand tags. */
    function Specific(name: string, operands: seq<string>, cycle: nat): Matcher
    {
      WhenSpecific(this, name, operands, cycle)
    }
  }

  /** `do_match`: the innermost-last search of the chain. It never fails. */
  function DoMatch(m: Matcher, input: Instruction): (r: Result<nat, MatchError>)
    ensures r.Ok?
  {
    match m
    case Unit => Ok(1)
    case WhenInst(inner, name, cycle) =>
      if input.name == name then Ok(cycle) else DoMatch(inner, input)
    case WhenSpecific(inner, name, operands, cycle) =>
      if input.name == name && input.operands == operands then Ok(cycle)
      else DoMatch(inner, input)
  }

  // ---------------------------------------------------------------------
  // The chain as a list of rules

  function RuleOf(m: Matcher): Rule
    requires m != Unit
  {
    match m
    case WhenInst(_, name, cycle) => InstRule(name, cycle)
    case WhenSpecific(_, name, operands, cycle) => SpecificRule(name, operands, cycle)
  }

  /** The rules of a matcher, in the order they were added. */
  function RulesOf(m: Matcher): seq<Rule>
  {
    if m == Unit then [] else RulesOf(m.inner) + [RuleOf(m)]
  }

  function Extend(m: Matcher, rule: Rule): Matcher
  {
    match rule
    case InstRule(name, cycle) => m.Inst(name, cycle)
    case SpecificRule(name, operands, cycle) => m.Specific(name, operands, cycle)
  }

  /** The matcher that adds the rules one after another to the unit. */
  function Build(rules: seq<Rule>): Matcher
  {
    if rules == [] then Unit else Extend(Build(rules[..|rules| - 1]), rules[|rules| - 1])
  }

  /** Building from a matcher's rules gives the matcher back. */
  lemma {:induction false} BuildRulesOf(m: Matcher)
    ensures Build(RulesOf(m)) == m
  {
    if m != Unit {
      var rs := RulesOf(m);
      assert rs[..|rs| - 1] == RulesOf(m.inner);
      BuildRulesOf(m.inner);
    }
  }

  /** The rules of a built matcher are the rules it was built from. */
  lemma {:induction false} RulesOfBuild(rules: seq<Rule>)
    ensures RulesOf(Build(rules)) == rules
  {
    if rules != [] {
      RulesOfBuild(rules[..|rules| - 1]);
    }
  }

  /** The index of the last rule that applies. */
  function LastApplicable(rules: seq<Rule>, input: Instruction): (r: Option<nat>)
    ensures r.Some? ==> r.value < |rules| && Applies(rules[r.value], input)
                        && forall j | r.value < j < |rules| :: !Applies(rules[j], input)
    ensures r.None? ==> forall j | 0 <= j < |rules| :: !Applies(rules[j], input)
  {
    if rules == [] then None
    else if Applies(rules[|rules| - 1], input) then Some(|rules| - 1)
    else LastApplicable(rules[..|rules| - 1], input)
  }

  /** The cycle the rule list decides: that of the last applicable rule, or
      one when no rule applies. */
  function CycleFor(rules: seq<Rule>, input: Instruction): nat
  {
    match LastApplicable(rules, input)
    case None => 1
    case Some(k) => rules[k].cycle
  }

  /** The chain answers what its rule list decides: the most recently added
      rule that applies wins. */
  lemma {:induction false} DoMatchIsLastRule(m: Matcher, input: Instruction)
    ensures DoMatch(m, input) == Ok(CycleFor(RulesOf(m), input))
  {
    if m != Unit {
      var rs := RulesOf(m);
      assert rs[..|rs| - 1] == RulesOf(m.inner);
      DoMatchIsLastRule(m.inner, input);
    }
  }

  /** When every applicable rule agrees on `c`, the order of the rules does
      not matter: the answer is `c` if some rule applies and one otherwise. */
  lemma AgreeingRules(rules: seq<Rule>, input: Instruction, c: nat)
    requires forall k | 0 <= k < |rules| && Applies(rules[k], input) :: rules[k].cycle == c
    ensures CycleFor(rules, input) == if exists k | 0 <= k < |rules| :: Applies(rules[k], input) then c else 1
  {
    if LastApplicable(rules, input).None? {
      assert !exists k | 0 <= k < |rules| :: Applies(rules[k], input);
    }
  }

  // ---------------------------------------------------------------------
  // The matcher of the 8051

  /** The rules `make_matcher` adds to the unit, in order: the two-cycle
      register, direct and bit forms, then the four-cycle multiply and divide,
      then the two-cycle code and external memory moves, stack operations,
      jumps, calls and returns. */
  const FormRules: seq<Rule> := [
    SpecificRule("INC", ["DPTR"], 2),
    SpecificRule("ANL", ["addr1B", "imm1B"], 2),
    SpecificRule("ORL", ["addr1B", "imm1B"], 2),
    SpecificRule("XRL", ["addr1B", "imm1B"], 2),
    SpecificRule("MOV", ["Rn", "addr1B"], 2),
    SpecificRule("MOV", ["addr1B", "Rn"], 2),
    SpecificRule("MOV", ["addr1B", "addr1B"], 2),
    SpecificRule("MOV", ["addr1B", "@Ri"], 2),
    SpecificRule("MOV", ["addr1B", "imm1B"], 2),
    SpecificRule("MOV", ["A", "addr1B"], 2),
    SpecificRule("MOV", ["@Ri", "direct"], 2),
    SpecificRule("MOV", ["DPTR", "imm2B"], 2),
    SpecificRule("MOV", ["bit", "C"], 2),
    SpecificRule("ANL", ["C", "bit"], 2),
    SpecificRule("ORL", ["C", "bit"], 2)
  ]

  const MnemonicRules: seq<Rule> := [
    InstRule("MUL", 4), InstRule("DIV", 4), InstRule("MOVC", 2), InstRule("MOVX", 2),
    InstRule("PUSH", 2), InstRule("POP", 2), InstRule("JC", 2), InstRule("JNC", 2),
    InstRule("JB", 2), InstRule("JNB", 2), InstRule("JZ", 2), InstRule("JNZ", 2),
    InstRule("JBC", 2), InstRule("ACALL", 2), InstRule("LCALL", 2), InstRule("AJMP", 2),
    InstRule("JMP", 2), InstRule("SJMP", 2), InstRule("CJNE", 2), InstRule("DJNZ", 2),
    InstRule("RET", 2), InstRule("RETI", 2)
  ]

  /** `make_matcher`: the unit extended by each rule in turn. */
  function MakeMatcher(): Matcher
  {
    Build(FormRules + MnemonicRules)
  }

  /** The mnemonics of the form rules; no mnemonic rule names one of them. */
  const FormMnemonics: set<string> := {"INC", "ANL", "ORL", "XRL", "MOV"}

  const RuleMnemonics: set<string> := {
    "MUL", "DIV", "MOVC", "MOVX", "PUSH", "POP", "JC", "JNC", "JB", "JNB", "JZ",
    "JNZ", "JBC", "ACALL", "LCALL", "AJMP", "JMP", "SJMP", "CJNE", "DJNZ",
    "RET", "RETI"
  }

  /** Multiply and divide take four cycles, every other mnemonic rule two. */
  function MnemonicCycle(name: string): nat
  {
    if name in {"MUL", "DIV"} then 4 else 2
  }

  /** The form rules give two cycles, each to a mnemonic of `FormMnemonics`;
      the mnemonic rules give `MnemonicCycle` to a mnemonic of
      `RuleMnemonics`, and the two sets do not meet. */
  lemma RuleShapes()
    ensures forall j | 0 <= j < |FormRules| :: FormRules[j].SpecificRule? && FormRules[j].cycle == 2
                                              && FormRules[j].name in FormMnemonics
    ensures forall k | 0 <= k < |MnemonicRules| ::
              MnemonicRules[k].InstRule? && MnemonicRules[k].name in RuleMnemonics
              && MnemonicRules[k].cycle == MnemonicCycle(MnemonicRules[k].name)
    ensures forall n | n in RuleMnemonics :: n !in FormMnemonics
  {
  }

  /** A mnemonic rule decides its mnemonic whatever the operands. */
  lemma MnemonicRuleDecides(k: nat, operands: seq<string>)
    requires k < |MnemonicRules|
    ensures DoMatch(MakeMatcher(), Instruction(MnemonicRules[k].name, operands))
            == Ok(MnemonicRules[k].cycle)
  {
    var input := Instruction(MnemonicRules[k].name, operands);
    var rules := FormRules + MnemonicRules;
    RuleShapes();
    DoMatchIsLastRule(MakeMatcher(), input);
    RulesOfBuild(rules);
    assert Applies(rules[|FormRules| + k], input);
    AgreeingRules(rules, input, MnemonicRules[k].cycle);
  }

  /** A form rule decides its mnemonic and operand tags: two cycles. */
  lemma FormRuleDecides(k: nat)
    requires k < |FormRules|
    ensures DoMatch(MakeMatcher(), Instruction(FormRules[k].name, FormRules[k].operands)) == Ok(2)
  {
    var input := Instruction(FormRules[k].name, FormRules[k].operands);
    var rules := FormRules + MnemonicRules;
    RuleShapes();
    DoMatchIsLastRule(MakeMatcher(), input);
    RulesOfBuild(rules);
    assert Applies(rules[k], input);
    AgreeingRules(rules, input, 2);
  }

  /** An instruction that no rule names, or a form mnemonic with operand
      tags no form rule lists, falls through to the unit: one cycle. */
  lemma NoRuleOneCycle(input: Instruction)
    requires input.name !in RuleMnemonics
    requires forall j | 0 <= j < |FormRules| :: !Applies(FormRules[j], input)
    ensures DoMatch(MakeMatcher(), input) == Ok(1)
  {
    var rules := FormRules + MnemonicRules;
    RuleShapes();
    DoMatchIsLastRule(MakeMatcher(), input);
    RulesOfBuild(rules);
    AgreeingRules(rules, input, 1);
  }

  /** Every instruction takes one, two or four machine cycles. */
  lemma CycleBounds(input: Instruction)
    ensures DoMatch(MakeMatcher(), input).value in {1, 2, 4}
  {
    var rules := FormRules + MnemonicRules;
    RuleShapes();
    DoMatchIsLastRule(MakeMatcher(), input);
    RulesOfBuild(rules);
  }

  /** A mnemonic that no rule names takes one cycle, whatever its operands. */
  lemma UnruledMnemonic(input: Instruction)
    requires input.name !in RuleMnemonics && input.name !in FormMnemonics
    ensures DoMatch(MakeMatcher(), input) == Ok(1)
  {
    RuleShapes();
    NoRuleOneCycle(input);
  }

  /** No operand tag is spelled `direct`, so the rule for `MOV @Ri, direct`
      never applies to an instruction whose operands are tag names. */
  lemma DirectRuleNeverApplies(name: string, tags: seq<Tag>)
    ensures !Applies(SpecificRule("MOV", ["@Ri", "direct"], 2), Instruction(name, TagNames(tags)))
  {
    if |tags| == 2 {
      assert TagNames(tags)[1] == TagName(tags[1]);
    }
  }

  /** The spellings of a list of tags. */
  function TagNames(tags: seq<Tag>): (names: seq<string>)
    ensures |names| == |tags|
    ensures forall k | 0 <= k < |tags| :: names[k] == TagName(tags[k])
  {
    seq(|tags|, k requires 0 <= k < |tags| => TagName(tags[k]))
  }

  /** The tag a spelling names, if any: the inverse of `TagName`. */
  function TagOfName(n: string): (r: Option<Tag>)
    ensures r.Some? ==> TagName(r.value) == n
    ensures forall t: Tag :: TagName(t) == n ==> r == Some(t)
  {
    match n
    case "A" => Some(A)
    case "AB" => Some(AB)
    case "C" => Some(C)
    case "DPTR" => Some(DPTR)
    case "@A+DPTR" => Some(AtAPlusDPTR)
    case "@A+PC" => Some(AtAPlusPC)
    case "@DPTR" => Some(AtDPTR)
    case "@Ri" => Some(AtRi)
    case "Rn" => Some(Rn)
    case "addr1B" => Some(Addr1B)
    case "imm1B" => Some(Imm1B)
    case "addr2B" => Some(Addr2B)
    case "imm2B" => Some(Imm2B)
    case "rel1B" => Some(Rel1B)
    case "bit" => Some(Bit)
    case _ => None
  }

  /** Every name in the list is the spelling of a tag, so a resolved
      instruction can carry it. */
  predicate AllTagNames(names: seq<string>)
  {
    forall i | 0 <= i < |names| :: TagOfName(names[i]).Some?
  }

  // ---------------------------------------------------------------------
  // The rule for MOV @Ri, direct

  /** As written, the eleventh form rule lists `direct`, which is no tag, so
      `MOV @Ri, addr1B` falls through to one cycle. */
  lemma DirectRuleIsDead()
    ensures FormRules[10] == SpecificRule("MOV", ["@Ri", "direct"], 2)
    ensures !AllTagNames(FormRules[10].operands)
    ensures DoMatch(MakeMatcher(), Instruction("MOV", ["@Ri", "addr1B"])) == Ok(1)
  {
    assert TagOfName(FormRules[10].operands[1]).None?;
    NoRuleOneCycle(Instruction("MOV", ["@Ri", "addr1B"]));
  }

  /** The form rules with `MOV @Ri, direct` spelled with the table's tag for a
      direct address. */
  const IntendedFormRules: seq<Rule> := FormRules[10 := SpecificRule("MOV", ["@Ri", "addr1B"], 2)]

  function MakeIntendedMatcher(): Matcher
  {
    Build(IntendedFormRules + MnemonicRules)
  }

  /** With the intended spelling every form rule lists only tags, so each can
      apply to a resolved instruction. */
  lemma IntendedFormRulesLive()
    ensures forall j | 0 <= j < |IntendedFormRules| :: AllTagNames(IntendedFormRules[j].operands)
  {
  }

  /** With the intended spelling `MOV @Ri, addr1B` takes two cycles. */
  lemma IntendedIndirectMove()
    ensures DoMatch(MakeIntendedMatcher(), Instruction("MOV", ["@Ri", "addr1B"])) == Ok(2)
  {
    var input := Instruction("MOV", ["@Ri", "addr1B"]);
    var rules := IntendedFormRules + MnemonicRules;
    RuleShapes();
    assert forall j | 0 <= j < |IntendedFormRules| :: IntendedFormRules[j].cycle == 2;
    DoMatchIsLastRule(MakeIntendedMatcher(), input);
    RulesOfBuild(rules);
    assert Applies(rules[10], input);
    AgreeingRules(rules, input, 2);
  }

  /** Two rule lists of one length in which the same positions apply, each
      such position holding the same rule, decide the same cycle. */
  lemma {:induction false} SameApplicableRules(r1: seq<Rule>, r2: seq<Rule>, input: Instruction)
    requires |r1| == |r2|
    requires forall j | 0 <= j < |r1| :: Applies(r1[j], input) <==> Applies(r2[j], input)
    requires forall j | 0 <= j < |r1| && Applies(r1[j], input) :: r1[j] == r2[j]
    ensures CycleFor(r1, input) == CycleFor(r2, input)
    decreases |r1|
  {
    if r1 != [] && !Applies(r1[|r1| - 1], input) {
      var n := |r1| - 1;
      assert forall j | 0 <= j < n :: r1[..n][j] == r1[j] && r2[..n][j] == r2[j];
      SameApplicableRules(r1[..n], r2[..n], input);
    }
  }

  /** On every instruction whose operands are tag names, the intended matcher
      differs from `make_matcher` only on `MOV @Ri, addr1B`. */
  lemma IntendedAgreesElsewhere(input: Instruction)
    requires AllTagNames(input.operands)
    requires input != Instruction("MOV", ["@Ri", "addr1B"])
    ensures DoMatch(MakeIntendedMatcher(), input) == DoMatch(MakeMatcher(), input)
  {
    DoMatchIsLastRule(MakeMatcher(), input);
    DoMatchIsLastRule(MakeIntendedMatcher(), input);
    RulesOfBuild(FormRules + MnemonicRules);
    RulesOfBuild(IntendedFormRules + MnemonicRules);
    IntendedRulesAgree(input);
  }

  /** The rule lists behind the two matchers decide alike on such an
      instruction: the one rule in which they differ applies in neither. */
  lemma IntendedRulesAgree(input: Instruction)
    requires AllTagNames(input.operands)
    requires input != Instruction("MOV", ["@Ri", "addr1B"])
    ensures CycleFor(IntendedFormRules + MnemonicRules, input) == CycleFor(FormRules + MnemonicRules, input)
  {
    var r1 := FormRules + MnemonicRules;
    var r2 := IntendedFormRules + MnemonicRules;
    assert TagOfName("direct").None?;
    assert !Applies(r1[10], input);
    assert !Applies(r2[10], input);
    assert forall j | 0 <= j < |r1| && j != 10 :: r1[j] == r2[j];
    SameApplicableRules(r1, r2, input);
  }
}
