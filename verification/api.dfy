/**
 * The four public entry points: strict (aborting) and lenient (optional)
 * parsing of a whole program and of a single instruction.
 */
module Api {
  import opened Wrappers
  import opened Instructions
  import opened Lexical
  import opened Grammar
  import Programs

  lemma InstructionProgresses(lit: Literals)
    ensures Programs.Progresses((s: string) => Instruction(lit, s))
  {
    forall s | Instruction(lit, s).Some?
      ensures IsSuffix(Instruction(lit, s).value.1, s) && |Instruction(lit, s).value.1| < |s|
    {
      InstructionConsumes(lit, s);
    }
  }

  /** `instruction`, as the line reader `many0` repeats. */
  function Reader(lit: Literals): (read: Programs.LineReader)
    ensures forall s :: read(s) == Instruction(lit, s)
  {
    InstructionProgresses(lit);
    (s: string) => Instruction(lit, s)
  }

  /** `program`. */
  function ProgramOf(lit: Literals, s: string): (r: Option<(Program, string)>)
    ensures r.Some? ==> r.value.1 == []
    ensures s == [] ==> r == Some(([], []))
  {
    Programs.ProgramParse(Reader(lit), s)
  }

  /** `try_parse`: the program, or `None` where `program` fails. */
  function TryParse(lit: Literals, s: string): (r: Option<Program>)
    ensures r.Some? ==> 4 * |r.value| <= |s|
  {
    match ProgramOf(lit, s)
    case None => None
    case Some((prog, _)) =>
      ProgramIsShort(lit, s);
      Some(prog)
  }

  /** Each instruction takes at least four characters of the text. */
  lemma {:induction false} ManyIsShort(lit: Literals, s: string)
    ensures 4 * |Programs.Many(Reader(lit), s).0| <= |s| - |Programs.Many(Reader(lit), s).1|
    decreases |s|
  {
    if Instruction(lit, s).Some? {
      var rest := Instruction(lit, s).value.1;
      InstructionConsumes(lit, s);
      ManyIsShort(lit, rest);
    }
  }

  lemma ProgramIsShort(lit: Literals, s: string)
    requires ProgramOf(lit, s).Some?
    ensures 4 * |ProgramOf(lit, s).value.0| <= |s|
  {
    ManyIsShort(lit, s);
  }

  /** Where `parse` aborts: `expect` on a failed `program`. */
  predicate ParseAborts(lit: Literals, s: string) {
    ProgramOf(lit, s).None?
  }

  /** `parse`: defined only where it does not abort, and then the lenient result. */
  function Parse(lit: Literals, s: string): (prog: Program)
    requires !ParseAborts(lit, s)
    ensures TryParse(lit, s) == Some(prog)
  {
    ProgramOf(lit, s).value.0
  }

  /** `try_parse_instruction`: the first line's instruction; whatever follows the
      newline is ignored. */
  function TryParseInstruction(lit: Literals, s: string): (r: Option<Instr>)
    ensures r.Some? ==> Opcodes.Token(OpcodeOf(r.value)) <= s
  {
    match Instruction(lit, s)
    case None => None
    case Some((x, _)) =>
      InstructionConsumes(lit, s);
      Some(x)
  }

  /** Where `parse_instruction` aborts: `unwrap` on a failed `instruction`. */
  predicate ParseInstructionAborts(lit: Literals, s: string) {
    Instruction(lit, s).None?
  }

  /** `parse_instruction`: defined only where it does not abort, and then the
      lenient result. */
  function ParseInstruction(lit: Literals, s: string): (x: Instr)
    requires !ParseInstructionAborts(lit, s)
    ensures TryParseInstruction(lit, s) == Some(x)
  {
    Instruction(lit, s).value.0
  }

  /** The lenient entry points return `None` exactly where the strict ones abort. */
  lemma StrictLenientAgree(lit: Literals, s: string)
    ensures TryParse(lit, s).None? <==> ParseAborts(lit, s)
    ensures TryParseInstruction(lit, s).None? <==> ParseInstructionAborts(lit, s)
  {
  }

  /** A program is accepted exactly when it is a concatenation of instruction
      lines, and the result lists their instructions in order: any split of the
      input into lines that read as `prog` is accepted as `prog`, and an accepted
      input splits into the lines `many0` consumed. */
  lemma TryParseIsLines(lit: Literals, s: string, prog: Program, lines: seq<string>)
    ensures Programs.Concat(lines) == s && Programs.ReadsAsLines(Reader(lit), lines, prog, []) ==>
      TryParse(lit, s) == Some(prog)
    ensures TryParse(lit, s) == Some(prog) <==>
      && Programs.Concat(Programs.LinesOf(Reader(lit), s)) == s
      && Programs.ReadsAsLines(Reader(lit), Programs.LinesOf(Reader(lit), s), prog, [])
  {
    var read := Reader(lit);
    if Programs.Concat(lines) == s && Programs.ReadsAsLines(read, lines, prog, []) {
      Programs.ProgramAcceptsLines(read, lines, prog);
    }
    var own := Programs.LinesOf(read, s);
    if TryParse(lit, s) == Some(prog) {
      Programs.AcceptedProgramIsLines(read, s, prog);
    }
    if Programs.Concat(own) == s && Programs.ReadsAsLines(read, own, prog, []) {
      Programs.ProgramAcceptsLines(read, own, prog);
    }
  }

  /** `try_parse_instruction` reads the first line and ignores whatever follows
      its newline. */
  lemma TryParseInstructionIgnoresRest(lit: Literals, s: string, x: Instr, rest: string, t: string)
    requires Instruction(lit, s) == Some((x, rest))
    ensures TryParseInstruction(lit, s[..|s| - |rest|] + t) == Some(x)
  {
    InstructionConsumes(lit, s);
    SuffixSplit(rest, s);
    InstructionIgnoresRest(lit, s[..|s| - |rest|], rest, t, x);
  }

  /** Lines that each read on their own, one after the other, read line by line. */
  lemma {:induction false} LinesReadAlone(lit: Literals, lines: seq<string>, prog: Program)
    requires |lines| == |prog|
    requires forall k :: 0 <= k < |lines| ==> Instruction(lit, lines[k]) == Some((prog[k], []))
    ensures Programs.ReadsAsLines(Reader(lit), lines, prog, [])
    decreases |lines|
  {
    if lines != [] {
      forall k | 0 <= k < |lines| - 1
        ensures Instruction(lit, lines[1..][k]) == Some((prog[1..][k], []))
      {
        assert lines[1..][k] == lines[k + 1] && prog[1..][k] == prog[k + 1];
      }
      LinesReadAlone(lit, lines[1..], prog[1..]);
      var line, rest := lines[0], Programs.Concat(lines[1..]);
      LineReadsAlone(lit, line, prog[0], rest);
      assert Programs.Concat(lines) + [] == line + rest;
      assert Reader(lit)(line + rest) == Instruction(lit, line + rest);
      assert rest + [] == rest;
    }
  }

  /** A program whose lines each read on their own is accepted as their
      instructions in order. */
  lemma ProgramOfLinesReadAlone(lit: Literals, lines: seq<string>, prog: Program)
    requires |lines| == |prog|
    requires forall k :: 0 <= k < |lines| ==> Instruction(lit, lines[k]) == Some((prog[k], []))
    ensures TryParse(lit, Programs.Concat(lines)) == Some(prog)
  {
    LinesReadAlone(lit, lines, prog);
    Programs.ProgramAcceptsLines(Reader(lit), lines, prog);
  }

  /** Empty input is the empty program. */
  lemma EmptyInputIsEmptyProgram(lit: Literals)
    ensures TryParse(lit, "") == Some([])
  {
  }

  /** A `psh` line whose literal the float reader reads up to the newline. */
  lemma PshLineReads(lit: Literals, lexeme: string, v: F64, t: string)
    requires lit.double(lexeme + "\n" + t) == Some((v, "\n" + t))
    ensures Instruction(lit, "psh " + (lexeme + "\n" + t)) == Some((Psh(v), t))
  {
    var s := "psh " + (lexeme + "\n" + t);
    assert s[..4] == "psh " && s[4..] == lexeme + "\n" + t;
    assert RecognizePsh(lit, s) == Some((Psh(v), "\n" + t));
    OwnRecognizerLineReads(lit, s, Psh(v), t);
  }

  /** Where the float reader stops at a newline after "psh ", it has read the
      whole lexeme, up to the first newline. */
  lemma PshOperandEndsAtNewline(lit: Literals, lexeme: string, junk: string, v: F64, rem: string)
    requires '\n' !in lexeme
    requires lit.double(lexeme + "\n" + junk) == Some((v, rem)) && NewlineFirst(rem)
    ensures rem == "\n" + junk
  {
    var t := lexeme + "\n" + junk;
    var k := |t| - |rem|;
    assert IsSuffix(rem, t) && '\n' !in t[..k];
    assert t[k] == '\n' && t[|lexeme|] == '\n';
    assert forall i :: 0 <= i < |lexeme| ==> t[i] == lexeme[i];
    assert forall i :: 0 <= i < k ==> t[..k][i] == t[i];
    assert rem == t[|lexeme|..];
  }

  /** A `psh` line followed by text that is no line: the program is rejected as
      a whole, whatever the float reader makes of the operand. */
  lemma PshThenResidueRejected(lit: Literals, lexeme: string, junk: string)
    requires '\n' !in lexeme
    requires junk != [] && !Opcodes.IsLetter(junk[0])
    ensures TryParse(lit, "psh " + (lexeme + "\n" + junk)) == None
  {
    var s := "psh " + (lexeme + "\n" + junk);
    assert "psh " <= s && s[4..] == lexeme + "\n" + junk;
    PshLineThenResidue(lit, s, lexeme, junk);
  }

  lemma PshLineThenResidue(lit: Literals, s: string, lexeme: string, junk: string)
    requires '\n' !in lexeme
    requires junk != [] && !Opcodes.IsLetter(junk[0])
    requires "psh " <= s && s[4..] == lexeme + "\n" + junk
    ensures TryParse(lit, s) == None
  {
    var read := Reader(lit);
    if read(s).Some? {
      var x, rest := read(s).value.0, read(s).value.1;
      PshLineReadsOperand(lit, s, x, rest);
      PshOperandEndsAtNewline(lit, lexeme, junk, x.value, "\n" + rest);
      NotLowerCaseRejected(lit, junk);
      var line := s[..|s| - |junk|];
      assert line + junk == s;
      Programs.OneLine(read, line, x, junk);
      Programs.ResidueRejected(read, [line], [x], junk);
    } else {
      assert Programs.Concat([]) + s == s;
      Programs.ResidueRejected(read, [], [], s);
    }
  }

  /** "psh 1.0\nXXX\n" is rejected as a whole, whatever value the float reader
      gives for "1.0". */
  lemma PartialProgramRejected(lit: Literals)
    ensures TryParse(lit, "psh 1.0\nXXX\n") == None
  {
    var lexeme, junk := "1.0", "XXX\n";
    PartialProgramSpelling(lexeme, junk);
    PshThenResidueRejected(lit, lexeme, junk);
  }

  /** The literal's pieces, in a lemma of their own so that the proof above
      works on `lexeme` and `junk` rather than on character-level literals. */
  lemma PartialProgramSpelling(lexeme: string, junk: string)
    requires lexeme == "1.0" && junk == "XXX\n"
    ensures "psh " + (lexeme + "\n" + junk) == "psh 1.0\nXXX\n"
    ensures '\n' !in lexeme
    ensures junk != [] && !Opcodes.IsLetter(junk[0])
  {
  }
}
