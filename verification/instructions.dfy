/**
 * The instruction values the parser builds (the VM crate's `Instructions`
 * enum) and how each one splits into an opcode and an operand.
 */
module Instructions {
  import Opcodes

  /** The bit pattern of an IEEE-754 double; the parser only stores it. */
  type F64 = bv64

  /** A parsed program is the instruction list in input order. */
  type Program = seq<Instr>

  datatype Instr =
    | Psh(value: F64) | Pfa | Pta | Gap | Ptap | Sap(operand: nat) | Pek | Inp | Dup | Pop | Swp | Lsw(operand: nat)
    | Add | Sub | Mul | Div | Mod | Abs | Max | Min
    | Jmp(operand: nat) | Jiz(operand: nat) | Jnz(operand: nat) | Ipta | Jmpa | Jiza | Jnza | Ret

  /** The payload an instruction carries. */
  datatype Operand = NoOperand | UInt(n: nat) | Float(f: F64)

  function OpcodeOf(i: Instr): Opcodes.Opcode {
    match i
    case Psh(_) => Opcodes.Psh
    case Pfa => Opcodes.Pfa
    case Pta => Opcodes.Pta
    case Gap => Opcodes.Gap
    case Ptap => Opcodes.Ptap
    case Sap(_) => Opcodes.Sap
    case Pek => Opcodes.Pek
    case Inp => Opcodes.Inp
    case Dup => Opcodes.Dup
    case Pop => Opcodes.Pop
    case Swp => Opcodes.Swp
    case Lsw(_) => Opcodes.Lsw
    case Add => Opcodes.Add
    case Sub => Opcodes.Sub
    case Mul => Opcodes.Mul
    case Div => Opcodes.Div
    case Mod => Opcodes.Mod
    case Abs => Opcodes.Abs
    case Max => Opcodes.Max
    case Min => Opcodes.Min
    case Jmp(_) => Opcodes.Jmp
    case Jiz(_) => Opcodes.Jiz
    case Jnz(_) => Opcodes.Jnz
    case Ipta => Opcodes.Ipta
    case Jmpa => Opcodes.Jmpa
    case Jiza => Opcodes.Jiza
    case Jnza => Opcodes.Jnza
    case Ret => Opcodes.Ret
  }

  function OperandOf(i: Instr): Operand {
    match i
    case Psh(v) => Float(v)
    case Sap(n) => UInt(n)
    case Lsw(n) => UInt(n)
    case Jmp(n) => UInt(n)
    case Jiz(n) => UInt(n)
    case Jnz(n) => UInt(n)
    case _ => NoOperand
  }

  /** The operand an instruction carries is of the kind its opcode's recognizer reads. */
  lemma OperandFitsShape(i: Instr)
    ensures OperandOf(i).NoOperand? <==> Opcodes.ShapeOf(OpcodeOf(i)) == Opcodes.Bare
    ensures OperandOf(i).UInt? <==> Opcodes.ShapeOf(OpcodeOf(i)) == Opcodes.UIntOperand
    ensures OperandOf(i).Float? <==> Opcodes.ShapeOf(OpcodeOf(i)) == Opcodes.FloatOperand
  {
  }

  /** An instruction is determined by its opcode and operand. */
  lemma DeterminedByParts(i: Instr, j: Instr)
    requires OpcodeOf(i) == OpcodeOf(j) && OperandOf(i) == OperandOf(j)
    ensures i == j
  {
  }

  /** The fixed variant a bare recognizer returns. */
  function BareInstr(op: Opcodes.Opcode): (i: Instr)
    requires Opcodes.ShapeOf(op) == Opcodes.Bare
    ensures OpcodeOf(i) == op && OperandOf(i) == NoOperand
  {
    match op
    case Pfa => Pfa
    case Pta => Pta
    case Gap => Gap
    case Ptap => Ptap
    case Pek => Pek
    case Inp => Inp
    case Dup => Dup
    case Pop => Pop
    case Swp => Swp
    case Add => Add
    case Sub => Sub
    case Mul => Mul
    case Div => Div
    case Mod => Mod
    case Abs => Abs
    case Max => Max
    case Min => Min
    case Ipta => Ipta
    case Jmpa => Jmpa
    case Jiza => Jiza
    case Jnza => Jnza
    case Ret => Ret
  }

  /** The variant an operand recognizer builds around its decimal operand. */
  function UIntInstr(op: Opcodes.Opcode, n: nat): (i: Instr)
    requires Opcodes.ShapeOf(op) == Opcodes.UIntOperand
    ensures OpcodeOf(i) == op && OperandOf(i) == UInt(n)
  {
    match op
    case Sap => Sap(n)
    case Lsw => Lsw(n)
    case Jmp => Jmp(n)
    case Jiz => Jiz(n)
    case Jnz => Jnz(n)
  }
}
