/** Addressing modes of 8051 operands, the bytes each adds to an instruction,
    the operand-tag to addressing-mode table, and the instruction record that the
    cycle matcher inspects (src/instruction.rs). */
module Addressing {
  import opened Wrappers
  import opened Classifier

  /** The flag of `Immediate` and `Direct` tells a two-byte operand from a
      one-byte one. */
  datatype AddressingMode =
    | Immediate(isTwo: bool)
    | Direct(isTwo: bool)
    | RegisterDirect
    | RegisterIndirect
    | Indexed
    | Implied

  /** The bytes an operand in this mode adds after the opcode byte. */
  function BytesRequired(mode: AddressingMode): (n: nat)
    ensures n <= 2
    ensures n == 0 <==> !(mode.Immediate? || mode.Direct?)
    ensures n == 2 <==> ((mode.Immediate? || mode.Direct?) && mode.isTwo)
  {
    match mode
    case Immediate(isTwo) => 1 + (if isTwo then 1 else 0)
    case Indexed => 0
    case Direct(isTwo) => 1 + (if isTwo then 1 else 0)
    case Implied => 0
    case RegisterDirect => 0
    case RegisterIndirect => 0
  }

  /** The addressing mode of each operand tag; `AB` has none. */
  function AddrMode(t: Tag): Option<AddressingMode>
  {
    match t
    case A => Some(RegisterDirect)
    case C => Some(RegisterDirect)
    case Rn => Some(RegisterDirect)
    case DPTR => Some(RegisterDirect)
    case AtRi => Some(RegisterIndirect)
    case AtDPTR => Some(RegisterIndirect)
    case Imm1B => Some(Immediate(false))
    case Imm2B => Some(Immediate(true))
    case Addr1B => Some(Direct(false))
    case Addr2B => Some(Direct(true))
    case Rel1B => Some(Direct(false))
    case Bit => Some(Direct(false))
    case AtAPlusDPTR => Some(Indexed)
    case AtAPlusPC => Some(Indexed)
    case AB => None
  }

  /** The bytes a sequence of operand modes adds after the opcode byte. */
  function SumBytes(modes: seq<AddressingMode>): (n: nat)
    ensures n <= 2 * |modes|
  {
    if modes == [] then 0 else BytesRequired(modes[0]) + SumBytes(modes[1..])
  }

  lemma {:induction false} SumBytesAppend(a: seq<AddressingMode>, b: seq<AddressingMode>)
    ensures SumBytes(a + b) == SumBytes(a) + SumBytes(b)
  {
    if a == [] {
      assert a + b == b;
    } else {
      assert (a + b)[1..] == a[1..] + b;
      SumBytesAppend(a[1..], b);
    }
  }

  /** The roles of the tags: registers are register-direct, `@` forms indirect
      or indexed, immediates and addresses carry one or two bytes, and only
      `AB` has no mode. */
  lemma AddrModeRoles(t: Tag)
    ensures AddrMode(t).None? <==> t == AB
    ensures AddrMode(t) == Some(RegisterDirect) <==> t in {A, C, Rn, DPTR}
    ensures AddrMode(t) == Some(RegisterIndirect) <==> t in {AtRi, AtDPTR}
    ensures AddrMode(t) == Some(Indexed) <==> t in {AtAPlusDPTR, AtAPlusPC}
    ensures AddrMode(t) == Some(Direct(false)) <==> t in {Addr1B, Rel1B, Bit}
    ensures AddrMode(t) == Some(Direct(true)) <==> t == Addr2B
    ensures AddrMode(t) == Some(Immediate(false)) <==> t == Imm1B
    ensures AddrMode(t) == Some(Immediate(true)) <==> t == Imm2B
    ensures AddrMode(t) != Some(Implied)
  {
  }

  /** The bytes an operand of each tag adds: two for the two-byte address and
      immediate, one for the other addresses, immediates, offsets and bits,
      none for registers. */
  lemma TagBytes(t: Tag)
    requires t != AB
    ensures BytesRequired(AddrMode(t).value) == 2 <==> t in {Addr2B, Imm2B}
    ensures BytesRequired(AddrMode(t).value) == 1 <==> t in {Addr1B, Imm1B, Rel1B, Bit}
  {
  }

  /** An instruction as the cycle matcher sees it: its mnemonic and the operand
      tags of the alternative it was resolved to. */
  datatype Instruction = Instruction(name: string, operands: seq<string>)
}
