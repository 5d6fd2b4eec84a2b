/**
 * Concrete lines and programs, each derived from the general lemmas: which
 * texts the parser reads, as what, and which it rejects.
 */
module Samples {
  import opened Wrappers
  import Opcodes
  import opened Instructions
  import opened Lexical
  import opened Grammar
  import opened Api
  import Programs
  import Render

  /** A spelling for float operands; none of the samples below renders one. */
  function NoFloat(v: F64): string { "" }

  /** A rendered line and nothing after it reads as its instruction. */
  lemma RenderedLine(lit: Literals, x: Instr, s: string)
    requires Render.ReadsBack(lit, NoFloat, x) && s == Render.RenderInstr(NoFloat, x)
    ensures Instruction(lit, s) == Some((x, ""))
  {
    Render.LineReadsBack(lit, NoFloat, x, "");
    assert s + "" == s;
  }

  /** A bare mnemonic followed by a newline reads as its instruction. */
  lemma BareLine(lit: Literals, x: Instr, s: string)
    requires OperandOf(x).NoOperand? && s == Opcodes.Mnemonic(OpcodeOf(x)) + "\n"
    ensures Instruction(lit, s) == Some((x, ""))
  {
    assert Opcodes.Mnemonic(OpcodeOf(x)) + "" + "\n" == s;
    RenderedLine(lit, x, s);
  }

  /** "pta\n" reads as `pta`, although "ptap" is tried before it. */
  lemma PtaLine(lit: Literals)
    ensures Instruction(lit, "pta\n") == Some((Pta, ""))
  {
    assert Opcodes.Mnemonic(OpcodeOf(Pta)) == "pta";
    BareLine(lit, Pta, "pta\n");
  }

  /** "jmpa\n", "jiza\n" and "jnza\n" read as the bare jumps, although "jmp ",
      "jiz " and "jnz " are tried before them. */
  lemma JmpaLine(lit: Literals)
    ensures Instruction(lit, "jmpa\n") == Some((Jmpa, ""))
  {
    assert Opcodes.Mnemonic(OpcodeOf(Jmpa)) == "jmpa";
    BareLine(lit, Jmpa, "jmpa\n");
  }

  lemma JizaLine(lit: Literals)
    ensures Instruction(lit, "jiza\n") == Some((Jiza, ""))
  {
    assert Opcodes.Mnemonic(OpcodeOf(Jiza)) == "jiza";
    BareLine(lit, Jiza, "jiza\n");
  }

  lemma JnzaLine(lit: Literals)
    ensures Instruction(lit, "jnza\n") == Some((Jnza, ""))
  {
    assert Opcodes.Mnemonic(OpcodeOf(Jnza)) == "jnza";
    BareLine(lit, Jnza, "jnza\n");
  }

  /** "sap 3\n" reads as `sap 3` whenever 3 fits the operand type. */
  lemma SapLine(lit: Literals)
    requires lit.uintMax >= 3
    ensures Instruction(lit, "sap 3\n") == Some((Sap(3), ""))
  {
    assert DecimalString(3) == "3";
    assert Opcodes.Mnemonic(OpcodeOf(Sap(3))) == "sap";
    assert Render.RenderInstr(NoFloat, Sap(3)) == "sap" + " " + "3" + "\n";
    RenderedLine(lit, Sap(3), "sap 3\n");
  }

  /** "ret" without its newline is rejected: a line is at least four characters. */
  lemma UnterminatedRetRejected(lit: Literals)
    ensures Instruction(lit, "ret") == None
  {
    if Instruction(lit, "ret").Some? {
      InstructionConsumes(lit, "ret");
    }
  }

  /** "ptax\n": `pta` matches, then the newline is missing; nothing else is tried. */
  lemma PtaxRejected(lit: Literals)
    ensures Instruction(lit, "ptax\n") == None
  {
    var s := "ptax\n";
    assert Opcodes.Token(Opcodes.Pta) == "pta";
    assert s[3..] == "x\n";
    BareWithoutNewlineRejected(lit, Opcodes.Pta, s);
  }

  /** "sap 1a\n": the operand stops at 'a', where the newline should be. */
  lemma TrailingLetterRejected(lit: Literals)
    ensures Instruction(lit, "sap 1a\n") == None
  {
    assert Opcodes.Token(Opcodes.Sap) == "sap ";
    SapSpelling("sap ", "1", "a\n", "sap 1a\n");
    UIntWithoutNewlineRejected(lit, Opcodes.Sap, "1", "a\n");
  }

  /** "sap -1\n": a sign is not part of an unsigned operand. */
  lemma NegativeOperandRejected(lit: Literals)
    ensures Instruction(lit, "sap -1\n") == None
  {
    assert Opcodes.Token(Opcodes.Sap) == "sap ";
    SapSpelling("sap ", ['-'], "1\n", "sap -1\n");
    SignedOperandRejected(lit, Opcodes.Sap, '-', "1\n");
  }

  /** How the literal above is assembled from its pieces, stated about variables
      so that the caller's proof does not reason about the literal's characters. */
  lemma SapSpelling(tok: string, a: string, b: string, s: string)
    requires tok == "sap "
    requires (a == "1" && b == "a\n" && s == "sap 1a\n") || (a == ['-'] && b == "1\n" && s == "sap -1\n")
    ensures tok + a + b == s
  {
  }

  /** "PSH 1\n": mnemonics are case-sensitive. */
  lemma UpperCaseRejected(lit: Literals)
    ensures Instruction(lit, "PSH 1\n") == None
  {
    NotLowerCaseRejected(lit, "PSH 1\n");
  }

  /** With operands of at most 9, "jmp 10\n" is rejected rather than truncated. */
  lemma JumpPastBoundRejected(lit: Literals)
    requires lit.uintMax == 9
    ensures Instruction(lit, "jmp 10\n") == None
  {
    assert DecimalValue("10") == 10 by {
      assert "10"[..1] == "1";
      assert DecimalValue("1") == 1 by { assert "1"[..0] == ""; }
    }
    assert Opcodes.Token(Opcodes.Jmp) == "jmp ";
    JmpSpelling("jmp ", "10", "\n");
    OversizedOperandRejected(lit, Opcodes.Jmp, "10", "\n");
  }

  /** The literal above assembled from its pieces, as in `SapSpelling`. */
  lemma JmpSpelling(tok: string, ds: string, t: string)
    requires tok == "jmp " && ds == "10" && t == "\n"
    ensures tok + ds + t == "jmp 10\n"
  {
  }

  /** `try_parse_instruction("ret\nzzz")` is `ret`: the rest is not looked at. */
  lemma RetThenJunk(lit: Literals)
    ensures TryParseInstruction(lit, "ret\nzzz") == Some(Ret)
  {
    SmallProgramLines();
    RetSpelling("ret\n", "zzz");
    Render.SingleInstructionIgnoresRest(lit, NoFloat, Ret, "zzz");
  }

  /** The literal above assembled from its pieces, as in `SapSpelling`. */
  lemma RetSpelling(line: string, t: string)
    requires line == "ret\n" && t == "zzz"
    ensures line + t == "ret\nzzz"
  {
  }

  /** "sap 007\nzzz": a non-canonical operand reads as its value, and the text
      after the newline is not looked at. */
  lemma PaddedOperandThenJunk(lit: Literals)
    requires lit.uintMax >= 7
    ensures TryParseInstruction(lit, "sap 007\nzzz") == Some(Sap(7))
  {
    assert DecimalValue("007") == 7 by {
      assert DecimalValue("07") == DecimalValue("7") by { assert "07"[1..] == "7"; }
      assert DecimalValue("007") == DecimalValue("07") by { assert "007"[1..] == "07"; }
      assert DecimalValue("7") == 7 by { assert "7"[..0] == ""; }
    }
    assert Opcodes.Token(Opcodes.Sap) == "sap ";
    PaddedSpelling("sap ", "007", "\nzzz");
    UIntReadsRun(lit, Opcodes.Sap, "007", "\nzzz");
    OwnRecognizerLineReads(lit, "sap 007\nzzz", Sap(7), "zzz");
  }

  /** The literal above assembled from its pieces, as in `SapSpelling`. */
  lemma PaddedSpelling(tok: string, ds: string, t: string)
    requires tok == "sap " && ds == "007" && t == "\nzzz"
    ensures tok + ds + t == "sap 007\nzzz"
    ensures "\n" + "zzz" == t
    ensures AllDigits(ds) && t[0] == '\n'
  {
  }

  /** "psh 1\npsh 1\n" reads as two `psh` instructions whenever the float reader
      reads "1" on a line of its own. */
  lemma TwoPshLines(lit: Literals, v: F64)
    requires lit.double("1\n") == Some((v, "\n"))
    ensures TryParse(lit, "psh 1\npsh 1\n") == Some([Psh(v), Psh(v)])
  {
    var line := "psh 1\n";
    PshSpelling("1", line, "psh 1\npsh 1\n");
    PshLineReads(lit, "1", v, "");
    var lines := [line, line];
    assert lines[1..] == [line] && [line][1..] == [];
    assert Programs.Concat([line]) == line + [];
    assert Programs.Concat(lines) == line + Programs.Concat([line]);
    ProgramOfLinesReadAlone(lit, lines, [Psh(v), Psh(v)]);
  }

  /** The literal above assembled from its pieces, as in `SapSpelling`. */
  lemma PshSpelling(lexeme: string, line: string, program: string)
    requires lexeme == "1" && line == "psh 1\n" && program == "psh 1\npsh 1\n"
    ensures lexeme + "\n" + "" == "1\n" && "\n" + "" == "\n"
    ensures "psh " + (lexeme + "\n" + "") == line
    ensures line + (line + []) == program
  {
  }

  /** A three-line program reads back in order. */
  lemma SmallProgram(lit: Literals)
    requires lit.uintMax >= 3
    ensures TryParse(lit, "sap 3\njmp 0\nret\n") == Some([Sap(3), Jmp(0), Ret])
  {
    var prog := [Sap(3), Jmp(0), Ret];
    Render.RoundTripWithoutPsh(lit, NoFloat, prog);
    ThreeLines(prog);
    SmallProgramLines();
    ProgramSpelling("sap 3\n", "jmp 0\n", "ret\n");
  }

  /** A three-instruction program renders as its three lines. */
  lemma ThreeLines(prog: Program)
    requires |prog| == 3
    ensures Render.RenderProgram(NoFloat, prog) ==
      Render.RenderInstr(NoFloat, prog[0]) + Render.RenderInstr(NoFloat, prog[1]) + Render.RenderInstr(NoFloat, prog[2])
  {
    var p1, p2 := prog[1..], prog[1..][1..];
    assert p1[0] == prog[1] && p2[0] == prog[2] && p2[1..] == [];
    Render.RenderProgramCons(NoFloat, prog);
    Render.RenderProgramCons(NoFloat, p1);
    Render.RenderProgramCons(NoFloat, p2);
    assert Render.RenderProgram(NoFloat, []) == [];
  }


  lemma SmallProgramLines()
    ensures Render.RenderInstr(NoFloat, Sap(3)) == "sap 3\n"
    ensures Render.RenderInstr(NoFloat, Jmp(0)) == "jmp 0\n"
    ensures Render.RenderInstr(NoFloat, Ret) == "ret\n"
  {
    assert DecimalString(3) == "3" && DecimalString(0) == "0";
    assert Opcodes.Mnemonic(OpcodeOf(Sap(3))) == "sap";
    assert Render.RenderInstr(NoFloat, Sap(3)) == "sap" + " " + "3" + "\n";
    assert Opcodes.Mnemonic(OpcodeOf(Jmp(0))) == "jmp";
    assert Render.RenderInstr(NoFloat, Jmp(0)) == "jmp" + " " + "0" + "\n";
    assert Opcodes.Mnemonic(OpcodeOf(Ret)) == "ret";
    assert Render.RenderInstr(NoFloat, Ret) == "ret" + "" + "\n";
  }

  /** The literal above assembled from its pieces, as in `SapSpelling`. */
  lemma ProgramSpelling(a: string, b: string, c: string)
    requires a == "sap 3\n" && b == "jmp 0\n" && c == "ret\n"
    ensures a + b + c == "sap 3\njmp 0\nret\n"
  {
  }
}
