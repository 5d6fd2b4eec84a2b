/**
 * A serialiser from instructions to assembly text, one `mnemonic[ operand]`
 * line each, and the round trip through the parser.
 */
module Render {
  import opened Wrappers
  import Opcodes
  import opened Instructions
  import opened Lexical
  import opened Grammar
  import Programs
  import opened Api

  /** The text of one line; `show` spells a float operand. */
  function RenderInstr(show: F64 -> string, x: Instr): string {
    var operand :=
      match OperandOf(x)
      case NoOperand => ""
      case UInt(n) => " " + DecimalString(n)
      case Float(v) => " " + show(v);
    Opcodes.Mnemonic(OpcodeOf(x)) + operand + "\n"
  }

  function RenderLines(show: F64 -> string, prog: Program): (lines: seq<string>)
    ensures |lines| == |prog|
  {
    if prog == [] then [] else [RenderInstr(show, prog[0])] + RenderLines(show, prog[1..])
  }

  function RenderProgram(show: F64 -> string, prog: Program): string {
    Programs.Concat(RenderLines(show, prog))
  }

  /** A program renders as its first line followed by the rest. */
  lemma RenderProgramCons(show: F64 -> string, prog: Program)
    requires prog != []
    ensures RenderProgram(show, prog) == RenderInstr(show, prog[0]) + RenderProgram(show, prog[1..])
  {
    assert RenderLines(show, prog)[1..] == RenderLines(show, prog[1..]);
  }

  /** `x`'s line can be read back: an unsigned operand fits the VM's type, and the
      float reader reads a float operand's spelling up to the newline. */
  ghost predicate ReadsBack(lit: Literals, show: F64 -> string, x: Instr) {
    match OperandOf(x)
    case NoOperand => true
    case UInt(n) => n <= lit.uintMax
    case Float(v) => forall t :: lit.double(show(v) + "\n" + t) == Some((v, "\n" + t))
  }

  /** The recognizer of `x`'s opcode reads `x` back from its rendered line and
      leaves the newline and whatever followed. */
  lemma RecognizeRendered(lit: Literals, show: F64 -> string, x: Instr, t: string)
    requires ReadsBack(lit, show, x)
    ensures Recognize(lit, OpcodeOf(x), RenderInstr(show, x) + t) == Some((x, "\n" + t))
  {
    OperandFitsShape(x);
    match OperandOf(x)
    case NoOperand => RecognizeRenderedBare(lit, show, x, t);
    case UInt(n) => RecognizeRenderedUInt(lit, show, x, n, t);
    case Float(v) => RecognizeRenderedPsh(lit, show, v, t);
  }

  lemma RecognizeRenderedBare(lit: Literals, show: F64 -> string, x: Instr, t: string)
    requires OperandOf(x).NoOperand?
    ensures Recognize(lit, OpcodeOf(x), RenderInstr(show, x) + t) == Some((x, "\n" + t))
  {
    var op := OpcodeOf(x);
    var m := Opcodes.Mnemonic(op);
    OperandFitsShape(x);
    assert RenderInstr(show, x) + t == m + ("\n" + t);
    DeterminedByParts(x, BareInstr(op));
  }

  lemma RecognizeRenderedUInt(lit: Literals, show: F64 -> string, x: Instr, n: nat, t: string)
    requires OperandOf(x) == UInt(n) && n <= lit.uintMax
    ensures Recognize(lit, OpcodeOf(x), RenderInstr(show, x) + t) == Some((x, "\n" + t))
  {
    var op := OpcodeOf(x);
    OperandFitsShape(x);
    var ds, tok := DecimalString(n), Opcodes.Token(op);
    var s := RenderInstr(show, x) + t;
    assert s == tok + ds + ("\n" + t);
    UIntReadsRun(lit, op, ds, "\n" + t);
    DeterminedByParts(x, UIntInstr(op, n));
  }

  lemma RecognizeRenderedPsh(lit: Literals, show: F64 -> string, v: F64, t: string)
    requires lit.double(show(v) + "\n" + t) == Some((v, "\n" + t))
    ensures Recognize(lit, Opcodes.Psh, RenderInstr(show, Psh(v)) + t) == Some((Psh(v), "\n" + t))
  {
    var s := RenderInstr(show, Psh(v)) + t;
    assert s == "psh " + (show(v) + "\n" + t);
    assert s[..4] == "psh " && s[4..] == show(v) + "\n" + t;
  }

  /** A rendered line reads back as its instruction, whatever text follows it. */
  lemma LineReadsBack(lit: Literals, show: F64 -> string, x: Instr, t: string)
    requires ReadsBack(lit, show, x)
    ensures Instruction(lit, RenderInstr(show, x) + t) == Some((x, t))
  {
    RecognizeRendered(lit, show, x, t);
    OwnRecognizerLineReads(lit, RenderInstr(show, x) + t, x, t);
  }

  /** `try_parse_instruction` reads the first rendered line and ignores the rest. */
  lemma SingleInstructionIgnoresRest(lit: Literals, show: F64 -> string, x: Instr, t: string)
    requires ReadsBack(lit, show, x)
    ensures TryParseInstruction(lit, RenderInstr(show, x) + t) == Some(x)
  {
    LineReadsBack(lit, show, x, t);
  }

  /** The rendered lines of a program read back line by line as the program. */
  lemma {:induction false} RenderedLinesRead(lit: Literals, show: F64 -> string, prog: Program)
    requires forall k :: 0 <= k < |prog| ==> ReadsBack(lit, show, prog[k])
    ensures Programs.ReadsAsLines(Reader(lit), RenderLines(show, prog), prog, [])
    decreases |prog|
  {
    if prog != [] {
      var lines := RenderLines(show, prog);
      assert lines[1..] == RenderLines(show, prog[1..]);
      RenderedLinesRead(lit, show, prog[1..]);
      var rest := Programs.Concat(lines[1..]);
      assert Programs.Concat(lines) == RenderInstr(show, prog[0]) + rest;
      LineReadsBack(lit, show, prog[0], rest);
      assert Programs.Concat(lines) + [] == RenderInstr(show, prog[0]) + rest;
      assert rest + [] == rest;
    }
  }

  /** Parsing a rendered program gives back the program. */
  lemma RoundTrip(lit: Literals, show: F64 -> string, prog: Program)
    requires forall k :: 0 <= k < |prog| ==> ReadsBack(lit, show, prog[k])
    ensures TryParse(lit, RenderProgram(show, prog)) == Some(prog)
  {
    RenderedLinesRead(lit, show, prog);
    Programs.ProgramAcceptsLines(Reader(lit), RenderLines(show, prog), prog);
  }

  /** Without `psh`, the round trip needs nothing of the float reader: only that
      every operand fits the VM's unsigned type. */
  lemma RoundTripWithoutPsh(lit: Literals, show: F64 -> string, prog: Program)
    requires forall k :: 0 <= k < |prog| ==> !prog[k].Psh?
    requires forall k :: 0 <= k < |prog| ==> OperandOf(prog[k]).UInt? ==> OperandOf(prog[k]).n <= lit.uintMax
    ensures TryParse(lit, RenderProgram(show, prog)) == Some(prog)
  {
    RoundTrip(lit, show, prog);
  }
}
