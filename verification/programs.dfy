/**
 * Whole programs: `terminated(many0(instruction), eof)`. `many0` and `eof` are
 * stated here for any line reader that consumes input whenever it succeeds;
 * `Api` instantiates them with `Grammar.Instruction`.
 */
module Programs {
  import opened Wrappers
  import opened Instructions
  import opened Lexical

  /** A reader that, whenever it succeeds, leaves a strictly shorter suffix. */
  ghost predicate Progresses(f: string -> Option<(Instr, string)>) {
    forall s :: f(s).Some? ==> IsSuffix(f(s).value.1, s) && |f(s).value.1| < |s|
  }

  type LineReader = f: string -> Option<(Instr, string)> | Progresses(f)
    witness (s: string) => None

  /** `many0(read)`: reads lines while one can be read; it never fails, and
      stops exactly where no further line can be read. */
  function Many(read: LineReader, s: string): (r: (Program, string))
    ensures IsSuffix(r.1, s)
    ensures read(r.1).None?
    ensures |r.0| <= |s| - |r.1|
    decreases |s|
  {
    match read(s)
    case None => ([], s)
    case Some((x, rest)) =>
      var (xs, tail) := Many(read, rest);
      ([x] + xs, tail)
  }

  /** `terminated(many0(read), eof)`. */
  function ProgramParse(read: LineReader, s: string): (r: Option<(Program, string)>)
    ensures r.Some? ==> r.value.1 == [] && |r.value.0| <= |s|
    ensures s == [] ==> r == Some(([], []))
  {
    var (prog, rest) := Many(read, s);
    if rest == [] then Some((prog, rest)) else None
  }

  function Concat(lines: seq<string>): string {
    if lines == [] then [] else lines[0] + Concat(lines[1..])
  }

  /** `lines`, followed by `tail`, reads line by line as `prog`: reading at the
      start of each line consumes exactly that line. */
  ghost predicate ReadsAsLines(read: LineReader, lines: seq<string>, prog: Program, tail: string)
    decreases |lines|
  {
    && |lines| == |prog|
    && (lines != [] ==>
         && read(Concat(lines) + tail) == Some((prog[0], Concat(lines[1..]) + tail))
         && ReadsAsLines(read, lines[1..], prog[1..], tail))
  }

  /** A single line. */
  lemma OneLine(read: LineReader, line: string, x: Instr, tail: string)
    requires read(line + tail) == Some((x, tail))
    ensures Concat([line]) == line
    ensures ReadsAsLines(read, [line], [x], tail)
  {
    assert [line][1..] == [];
    assert Concat([]) + tail == tail;
  }

  /** The text of each line `many0` consumes from `s`, in order. */
  function LinesOf(read: LineReader, s: string): (lines: seq<string>)
    ensures |lines| == |Many(read, s).0|
    decreases |s|
  {
    match read(s)
    case None => []
    case Some((x, rest)) => [s[..|s| - |rest|]] + LinesOf(read, rest)
  }

  lemma HeadTail<T>(xs: seq<T>)
    requires xs != []
    ensures [xs[0]] + xs[1..] == xs
  {
  }

  /** Text that reads line by line as `prog` and then stops at `tail` is read
      by `many0` as exactly `prog`, leaving `tail`. */
  lemma {:induction false} ManyReadsLines(read: LineReader, lines: seq<string>, prog: Program, tail: string)
    requires ReadsAsLines(read, lines, prog, tail)
    requires read(tail).None?
    ensures Many(read, Concat(lines) + tail) == (prog, tail)
    decreases |lines|
  {
    if lines == [] {
      assert Concat(lines) + tail == tail;
    } else {
      ManyReadsLines(read, lines[1..], prog[1..], tail);
      HeadTail(prog);
    }
  }

  /** The lines `many0` consumed, followed by where it stopped, make up its input. */
  lemma {:induction false} LinesOfConcat(read: LineReader, s: string)
    ensures Concat(LinesOf(read, s)) + Many(read, s).1 == s
    decreases |s|
  {
    if read(s).Some? {
      var rest := read(s).value.1;
      LinesOfConcat(read, rest);
      var head, more := s[..|s| - |rest|], LinesOf(read, rest);
      var tail := Many(read, rest).1;
      assert LinesOf(read, s) == [head] + more;
      assert Many(read, s).1 == tail;
      assert Concat([head] + more) == head + Concat(more) by {
        assert ([head] + more)[1..] == more;
      }
      SuffixSplit(rest, s);
      assert head + (Concat(more) + tail) == head + rest;
    }
  }

  /** Conversely, what `many0` reads splits into the lines it consumed, which
      read line by line as its result. */
  lemma {:induction false} ManySplitsIntoLines(read: LineReader, s: string)
    ensures Concat(LinesOf(read, s)) + Many(read, s).1 == s
    ensures ReadsAsLines(read, LinesOf(read, s), Many(read, s).0, Many(read, s).1)
    decreases |s|
  {
    LinesOfConcat(read, s);
    if read(s).Some? {
      var x, rest := read(s).value.0, read(s).value.1;
      ManySplitsIntoLines(read, rest);
      var lines, prog, tail := LinesOf(read, s), Many(read, s).0, Many(read, s).1;
      assert lines[1..] == LinesOf(read, rest);
      assert prog[0] == x && prog[1..] == Many(read, rest).0;
      assert tail == Many(read, rest).1;
      assert Concat(lines[1..]) + tail == rest;
    }
  }

  /** `program` accepts a concatenation of lines, and lists their instructions
      in input order. */
  lemma ProgramAcceptsLines(read: LineReader, lines: seq<string>, prog: Program)
    requires ReadsAsLines(read, lines, prog, [])
    ensures ProgramParse(read, Concat(lines)) == Some((prog, []))
  {
    assert Concat(lines) + [] == Concat(lines);
    ManyReadsLines(read, lines, prog, []);
  }

  /** Everything `program` accepts is such a concatenation. */
  lemma AcceptedProgramIsLines(read: LineReader, s: string, prog: Program)
    requires ProgramParse(read, s) == Some((prog, []))
    ensures Concat(LinesOf(read, s)) == s
    ensures ReadsAsLines(read, LinesOf(read, s), prog, [])
  {
    ManySplitsIntoLines(read, s);
    assert Concat(LinesOf(read, s)) + [] == Concat(LinesOf(read, s));
  }

  /** Well-formed lines followed by text that is not a line: `program` fails as
      a whole rather than returning the instructions read so far. */
  lemma ResidueRejected(read: LineReader, lines: seq<string>, prog: Program, tail: string)
    requires ReadsAsLines(read, lines, prog, tail)
    requires tail != [] && read(tail).None?
    ensures ProgramParse(read, Concat(lines) + tail) == None
  {
    ManyReadsLines(read, lines, prog, tail);
  }
}
