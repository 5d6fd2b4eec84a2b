/**
 * One instruction line: the per-mnemonic recognizers, the first-match
 * alternation over them, and the newline that must follow the alternative
 * that matched.
 */
module Grammar {
  import opened Wrappers
  import Opcodes
  import opened Instructions
  import opened Lexical

  /** A float reader only consumes, and never past the end of a line: what it
      leaves is a suffix of its input, and what it read holds no newline. */
  ghost predicate ConsumesWithinLine(f: string -> Option<(F64, string)>) {
    forall s :: f(s).Some? ==> IsSuffix(f(s).value.1, s) && '\n' !in s[..|s| - |f(s).value.1|]
  }

  /** A reader's result on some text, seen from that text followed by `t`. */
  function Reattach(r: Option<(F64, string)>, t: string): (r': Option<(F64, string)>)
    ensures r'.Some? <==> r.Some?
    ensures r.Some? ==> r'.value.0 == r.value.0 && r'.value.1 == r.value.1 + t
  {
    match r
    case None => None
    case Some((v, rem)) => Some((v, rem + t))
  }

  /** A float reader does not look past the first newline: on a line followed by
      more text it gives what it gives on the line alone, with that text still
      to read. */
  ghost predicate LineLocal(f: string -> Option<(F64, string)>) {
    forall a, t :: '\n' !in a ==> f(a + "\n" + t) == Reattach(f(a + "\n"), t)
  }

  /** nom's `double`. Which literals it accepts and what values it gives are not
      modelled; only that it reads within one line. */
  type FloatReader = f: string -> Option<(F64, string)> | ConsumesWithinLine(f) && LineLocal(f)
    witness (s: string) => None

  /** The two numeric readers the grammar borrows: the float reader behind `psh`,
      and the largest value of the VM's unsigned operand type. */
  datatype Literals = Literals(double: FloatReader, uintMax: nat)

  /** `tag(name)` for a bare mnemonic. */
  function RecognizeBare(op: Opcodes.Opcode, s: string): (r: Option<(Instr, string)>)
    requires Opcodes.ShapeOf(op) == Opcodes.Bare
    ensures r.Some? <==> Opcodes.Mnemonic(op) <= s
    ensures r.Some? ==> r.value.0 == BareInstr(op) && s == Opcodes.Mnemonic(op) + r.value.1
  {
    var m := Opcodes.Mnemonic(op);
    if m <= s then Some((BareInstr(op), s[|m|..])) else None
  }

  /** `preceded(tag("name "), map_res(digit1, str::parse))`. */
  function RecognizeUInt(lit: Literals, op: Opcodes.Opcode, s: string): (r: Option<(Instr, string)>)
    requires Opcodes.ShapeOf(op) == Opcodes.UIntOperand
    ensures r.Some? ==>
      && Opcodes.Token(op) <= s
      && IsSuffix(r.value.1, s[|Opcodes.Token(op)|..])
      && OpcodeOf(r.value.0) == op
      && OperandOf(r.value.0).UInt? && OperandOf(r.value.0).n <= lit.uintMax
  {
    var t := Opcodes.Token(op);
    if !(t <= s) then None
    else
      match Digit1(s[|t|..])
      case None => None
      case Some((digits, rest)) =>
        match ParseUInt(digits, lit.uintMax)
        case None => None
        case Some(n) => Some((UIntInstr(op, n), rest))
  }

  /** On the token, a run of digits and then a non-digit, the operand recognizer
      succeeds exactly when the run is not empty and its value fits; it then
      reads that value and leaves everything after the run. */
  lemma UIntReadsRun(lit: Literals, op: Opcodes.Opcode, ds: string, t: string)
    requires Opcodes.ShapeOf(op) == Opcodes.UIntOperand
    requires AllDigits(ds) && (t == [] || !IsDigit(t[0]))
    ensures RecognizeUInt(lit, op, Opcodes.Token(op) + ds + t) ==
      if ds != [] && DecimalValue(ds) <= lit.uintMax then Some((UIntInstr(op, DecimalValue(ds)), t)) else None
  {
    var tok := Opcodes.Token(op);
    var s := tok + ds + t;
    assert tok <= s;
    assert s[|tok|..] == ds + t;
    LeadingDigitsOfRun(ds, t);
    assert (ds + t)[|ds|..] == t;
    if ds == [] {
      assert Digit1(ds + t) == None;
    } else {
      assert Digit1(ds + t) == Some((ds, t));
    }
  }

  /** `preceded(tag("psh "), double)`. */
  function RecognizePsh(lit: Literals, s: string): (r: Option<(Instr, string)>)
    ensures r.Some? <==> "psh " <= s && lit.double(s[4..]).Some?
    ensures r.Some? ==> r.value.0.Psh? && IsSuffix(r.value.1, s[4..])
  {
    if "psh " <= s then
      match lit.double(s[4..])
      case None => None
      case Some((v, rest)) => Some((Psh(v), rest))
    else None
  }

  /** The recognizer of one opcode. On success it has read the opcode's token and
      built an instruction of that opcode. */
  function Recognize(lit: Literals, op: Opcodes.Opcode, s: string): (r: Option<(Instr, string)>)
    ensures r.Some? ==> OpcodeOf(r.value.0) == op
    ensures r.Some? ==> Opcodes.Token(op) <= s && IsSuffix(r.value.1, s[|Opcodes.Token(op)|..])
    ensures Opcodes.ShapeOf(op) == Opcodes.Bare ==>
      (r.Some? <==> Opcodes.Token(op) <= s) &&
      (r.Some? ==> r.value.1 == s[|Opcodes.Token(op)|..])
  {
    match Opcodes.ShapeOf(op)
    case Bare => RecognizeBare(op, s)
    case UIntOperand => RecognizeUInt(lit, op, s)
    case FloatOperand =>
      assert op == Opcodes.Psh;
      RecognizePsh(lit, s)
  }

  /** Every opcode's recognizer result on the same input: what `alt` chooses
      among. A result is always an instruction of its own opcode. */
  ghost predicate Tagged(f: Opcodes.Opcode -> Option<(Instr, string)>) {
    forall op :: f(op).Some? ==> OpcodeOf(f(op).value.0) == op
  }

  type Alternatives = f: Opcodes.Opcode -> Option<(Instr, string)> | Tagged(f)
    witness (op: Opcodes.Opcode) => None

  /** The recognizers applied to `s`. */
  function RecognizersOn(lit: Literals, s: string): (alts: Alternatives)
    ensures forall op :: alts(op) == Recognize(lit, op, s)
  {
    (op: Opcodes.Opcode) => Recognize(lit, op, s)
  }

  /** What the recognizers promise about their results on `s`: each has read its
      token, and a bare one has read nothing more. */
  ghost predicate Guarded(alts: Alternatives, s: string) {
    forall op :: alts(op).Some? ==>
      && Opcodes.Token(op) <= s
      && IsSuffix(alts(op).value.1, s[|Opcodes.Token(op)|..])
      && (Opcodes.ShapeOf(op) == Opcodes.Bare ==> alts(op).value.1 == s[|Opcodes.Token(op)|..])
  }

  lemma RecognizersGuarded(lit: Literals, s: string)
    ensures Guarded(RecognizersOn(lit, s), s)
  {
  }

  /** `alt`: the first alternative in `order` that succeeds decides the result. */
  function FirstMatch(alts: Alternatives, order: seq<Opcodes.Opcode>): (r: Option<(Instr, string)>)
    ensures r.Some? ==> OpcodeOf(r.value.0) in order && alts(OpcodeOf(r.value.0)) == r
    decreases |order|
  {
    if order == [] then None
    else
      match alts(order[0])
      case Some(m) => Some(m)
      case None => FirstMatch(alts, order[1..])
  }

  /** `alt` fails exactly when every alternative fails. */
  lemma {:induction false} FirstMatchFailsIffAllFail(alts: Alternatives, order: seq<Opcodes.Opcode>)
    ensures FirstMatch(alts, order).None? <==> forall k :: 0 <= k < |order| ==> alts(order[k]).None?
    decreases |order|
  {
    if order != [] {
      FirstMatchFailsIffAllFail(alts, order[1..]);
      assert forall k :: 1 <= k < |order| ==> order[k] == order[1..][k - 1];
    }
  }

  predicate NewlineFirst(s: string) {
    s != [] && s[0] == '\n'
  }

  /** A recognizer result that a line terminator follows. */
  predicate LineFollows(m: Option<(Instr, string)>) {
    m.Some? && NewlineFirst(m.value.1)
  }

  /** `terminated(alt(order), newline)`: the newline is checked once, after the
      alternation has committed to its first match. */
  function Line(alts: Alternatives, order: seq<Opcodes.Opcode>): (r: Option<(Instr, string)>)
    ensures r.Some? ==> FirstMatch(alts, order) == Some((r.value.0, "\n" + r.value.1))
    ensures r.None? <==> !LineFollows(FirstMatch(alts, order))
  {
    match FirstMatch(alts, order)
    case None => None
    case Some((x, rest)) =>
      if NewlineFirst(rest) then
        assert rest == "\n" + rest[1..];
        Some((x, rest[1..]))
      else None
  }

  /** A line read in any order has consumed its instruction's token, then
      possibly an operand, then a newline. */
  lemma LineConsumesTokenAndNewline(alts: Alternatives, order: seq<Opcodes.Opcode>, s: string)
    requires Guarded(alts, s) && Line(alts, order).Some?
    ensures
      var x, rest := Line(alts, order).value.0, Line(alts, order).value.1;
      && IsSuffix(rest, s)
      && |s| - |rest| >= |Opcodes.Token(OpcodeOf(x))| + 1
      && Opcodes.Token(OpcodeOf(x)) <= s
      && s[|s| - |rest| - 1] == '\n'
  {
    var x, rest := Line(alts, order).value.0, Line(alts, order).value.1;
    var t := Opcodes.Token(OpcodeOf(x));
    assert alts(OpcodeOf(x)) == Some((x, "\n" + rest));
    assert IsSuffix("\n" + rest, s[|t|..]);
    assert s[|s| - |rest| - 1] == ("\n" + rest)[0];
  }

  /** `instruction`: one line, in the source's dispatch order. */
  function Instruction(lit: Literals, s: string): (r: Option<(Instr, string)>)
    ensures r.Some? ==> Recognize(lit, OpcodeOf(r.value.0), s) == Some((r.value.0, "\n" + r.value.1))
  {
    Line(RecognizersOn(lit, s), Opcodes.DispatchOrder)
  }

  /** What `instruction` consumes: at least a token and a newline, so `many0`
      always makes progress. */
  lemma InstructionConsumes(lit: Literals, s: string)
    requires Instruction(lit, s).Some?
    ensures
      var x, rest := Instruction(lit, s).value.0, Instruction(lit, s).value.1;
      && IsSuffix(rest, s)
      && |s| - |rest| >= |Opcodes.Token(OpcodeOf(x))| + 1 >= 4
      && Opcodes.Token(OpcodeOf(x)) <= s
      && s[|s| - |rest| - 1] == '\n'
  {
    RecognizersGuarded(lit, s);
    LineConsumesTokenAndNewline(RecognizersOn(lit, s), Opcodes.DispatchOrder, s);
    Opcodes.TokenShape(OpcodeOf(Instruction(lit, s).value.0));
  }

  /** Reference reading with backtracking: the first alternative in `order` whose
      match is followed by a newline, as if the newline were checked inside each
      alternative. */
  function Backtracking(alts: Alternatives, order: seq<Opcodes.Opcode>): Option<(Instr, string)>
    decreases |order|
  {
    if order == [] then None
    else
      var m := alts(order[0]);
      if LineFollows(m) then Some((m.value.0, m.value.1[1..]))
      else Backtracking(alts, order[1..])
  }

  lemma PrefixesComparable(a: string, b: string, s: string)
    requires a <= s && b <= s
    ensures a <= b || b <= a
  {
    if |a| <= |b| {
      assert a == s[..|a|] == b[..|a|];
    } else {
      assert b == s[..|b|] == a[..|b|];
    }
  }

  /** Two different tokens at the start of the same input are "pta" and "ptap". */
  lemma TokensOnSameInput(a: Opcodes.Opcode, b: Opcodes.Opcode, s: string)
    requires a != b && Opcodes.Token(a) <= s && Opcodes.Token(b) <= s
    ensures (a == Opcodes.Pta && b == Opcodes.Ptap) || (a == Opcodes.Ptap && b == Opcodes.Pta)
  {
    PrefixesComparable(Opcodes.Token(a), Opcodes.Token(b), s);
    if Opcodes.Token(a) <= Opcodes.Token(b) {
      Opcodes.TokenPrefixFree(a, b);
    } else {
      Opcodes.TokenPrefixFree(b, a);
    }
  }

  /** Letters, except perhaps a final space: the form every token has. */
  predicate IsTokenText(t: string) {
    && t != []
    && (forall k :: 0 <= k < |t| - 1 ==> Opcodes.IsLetter(t[k]))
    && (Opcodes.IsLetter(t[|t| - 1]) || t[|t| - 1] == ' ')
  }

  lemma TokenIsTokenText(op: Opcodes.Opcode)
    ensures IsTokenText(Opcodes.Token(op))
    ensures Opcodes.ShapeOf(op) != Opcodes.Bare ==> Opcodes.Token(op)[|Opcodes.Token(op)| - 1] == ' '
  {
    Opcodes.TokenShape(op);
  }

  /** A token that is a proper prefix of another is followed there by a letter or
      space, never a newline, and never ends in a space itself. */
  lemma ProperPrefixOfToken(tb: string, ta: string)
    requires IsTokenText(ta) && tb != [] && tb <= ta && |tb| < |ta|
    ensures ta[|tb|] != '\n'
    ensures tb[|tb| - 1] != ' '
  {
    assert tb[|tb| - 1] == ta[|tb| - 1];
  }

  /** In a longest-first order, once an alternative matches, no later alternative
      could have matched with a newline after it. */
  lemma EarlierMatchBlocksLaterLine(alts: Alternatives, order: seq<Opcodes.Opcode>, s: string, i: nat, j: nat)
    requires Opcodes.LongestFirst(order) && Guarded(alts, s)
    requires i < j < |order|
    requires alts(order[i]).Some?
    ensures !LineFollows(alts(order[j]))
  {
    var a, b := order[i], order[j];
    var ta, tb := Opcodes.Token(a), Opcodes.Token(b);
    if LineFollows(alts(b)) {
      TokenIsTokenText(a);
      TokenIsTokenText(b);
      assert ta <= s && tb <= s;
      PrefixesComparable(ta, tb, s);
      assert !(ta <= tb);
      ProperPrefixOfToken(tb, ta);
    }
  }

  lemma {:induction false} NoLineNoBacktracking(alts: Alternatives, order: seq<Opcodes.Opcode>)
    requires forall j :: 0 <= j < |order| ==> !LineFollows(alts(order[j]))
    ensures Backtracking(alts, order) == None
    decreases |order|
  {
    if order != [] {
      assert forall j :: 1 <= j < |order| ==> order[j] == order[1..][j - 1];
      NoLineNoBacktracking(alts, order[1..]);
    }
  }

  /** Once an alternative matches, no later one matches with a newline after it. */
  ghost predicate MatchBlocksLaterLines(alts: Alternatives, order: seq<Opcodes.Opcode>) {
    forall i, j :: 0 <= i < j < |order| && alts(order[i]).Some? ==> !LineFollows(alts(order[j]))
  }

  /** That holds for every longest-first order. */
  lemma LongestFirstBlocks(alts: Alternatives, order: seq<Opcodes.Opcode>, s: string)
    requires Opcodes.LongestFirst(order) && Guarded(alts, s)
    ensures MatchBlocksLaterLines(alts, order)
  {
    forall i, j | 0 <= i < j < |order| && alts(order[i]).Some?
      ensures !LineFollows(alts(order[j]))
    {
      EarlierMatchBlocksLaterLine(alts, order, s, i, j);
    }
  }

  lemma BlocksTail(alts: Alternatives, order: seq<Opcodes.Opcode>)
    requires order != [] && MatchBlocksLaterLines(alts, order)
    ensures MatchBlocksLaterLines(alts, order[1..])
  {
    forall i, j | 0 <= i < j < |order[1..]| && alts(order[1..][i]).Some?
      ensures !LineFollows(alts(order[1..][j]))
    {
      assert order[1..][i] == order[i + 1] && order[1..][j] == order[j + 1];
    }
  }

  /** When an earlier match blocks every later line (as in any longest-first
      order), committing to the first match and then checking the newline accepts
      exactly what backtracking over the alternatives accepts. */
  lemma {:induction false} CommitAgreesWithBacktracking(alts: Alternatives, order: seq<Opcodes.Opcode>)
    requires MatchBlocksLaterLines(alts, order)
    ensures Line(alts, order) == Backtracking(alts, order)
    decreases |order|
  {
    if order != [] {
      BlocksTail(alts, order);
      var m := alts(order[0]);
      if m.Some? {
        assert FirstMatch(alts, order) == m;
        if !LineFollows(m) {
          forall j | 0 <= j < |order[1..]|
            ensures !LineFollows(alts(order[1..][j]))
          {
            assert order[1..][j] == order[j + 1];
          }
          NoLineNoBacktracking(alts, order[1..]);
        }
      } else {
        assert FirstMatch(alts, order) == FirstMatch(alts, order[1..]);
        CommitAgreesWithBacktracking(alts, order[1..]);
      }
    }
  }

  /** Under the same condition, any alternative whose match a newline follows is
      the one backtracking finds. */
  lemma {:induction false} BacktrackingFindsLine(alts: Alternatives, order: seq<Opcodes.Opcode>, k: nat)
    requires MatchBlocksLaterLines(alts, order)
    requires k < |order| && LineFollows(alts(order[k]))
    ensures Backtracking(alts, order) == Some((alts(order[k]).value.0, alts(order[k]).value.1[1..]))
    decreases k
  {
    if k > 0 {
      BlocksTail(alts, order);
      assert order[1..][k - 1] == order[k];
      BacktrackingFindsLine(alts, order[1..], k - 1);
    }
  }

  /** In a longest-first order, a line reads as `x` followed by `rest` exactly when
      the alternative of `x`'s own opcode reads `x` and leaves a newline and then
      `rest`. */
  lemma LineIsOwnAlternative(alts: Alternatives, order: seq<Opcodes.Opcode>, s: string, k: nat, x: Instr, rest: string)
    requires Opcodes.LongestFirst(order) && Guarded(alts, s)
    requires k < |order| && order[k] == OpcodeOf(x)
    ensures Line(alts, order) == Some((x, rest)) <==> alts(OpcodeOf(x)) == Some((x, "\n" + rest))
  {
    LongestFirstBlocks(alts, order, s);
    CommitAgreesWithBacktracking(alts, order);
    if alts(OpcodeOf(x)) == Some((x, "\n" + rest)) {
      BacktrackingFindsLine(alts, order, k);
      assert ("\n" + rest)[1..] == rest;
    }
  }

  /** An instruction line reads as `x` followed by `rest` exactly when the recognizer
      of `x`'s own opcode reads `x` and leaves a newline and then `rest`; where that
      recognizer sits in the dispatch order does not matter. */
  lemma InstructionIsOwnRecognizerThenNewline(lit: Literals, s: string, x: Instr, rest: string)
    ensures Instruction(lit, s) == Some((x, rest)) <==> Recognize(lit, OpcodeOf(x), s) == Some((x, "\n" + rest))
  {
    Opcodes.DispatchOrderIsLongestFirst();
    RecognizersGuarded(lit, s);
    LineIsOwnAlternative(RecognizersOn(lit, s), Opcodes.DispatchOrder, s, Opcodes.Rank(OpcodeOf(x)), x, rest);
  }

  /** The direction of the characterization that reads a line. */
  lemma OwnRecognizerLineReads(lit: Literals, s: string, x: Instr, rest: string)
    requires Recognize(lit, OpcodeOf(x), s) == Some((x, "\n" + rest))
    ensures Instruction(lit, s) == Some((x, rest))
  {
    InstructionIsOwnRecognizerThenNewline(lit, s, x, rest);
  }

  /** An input that starts with an operand-bearing token can only be read by that
      opcode's own recognizer. */
  lemma OnlyOwnRecognizer(lit: Literals, op: Opcodes.Opcode, b: Opcodes.Opcode, s: string)
    requires Opcodes.ShapeOf(op) != Opcodes.Bare && Opcodes.Token(op) <= s
    requires Recognize(lit, b, s).Some?
    ensures b == op
  {
    if b != op {
      TokensOnSameInput(op, b, s);
    }
  }

  /** A line that starts with "psh " is a `psh` line: the float reader read its
      operand and stopped at the newline. */
  lemma PshLineReadsOperand(lit: Literals, s: string, x: Instr, rest: string)
    requires "psh " <= s && Instruction(lit, s) == Some((x, rest))
    ensures x.Psh? && lit.double(s[4..]) == Some((x.value, "\n" + rest))
  {
    PshRecognizerReads(lit, s, x, "\n" + rest);
  }

  /** On input that starts with "psh ", only the `psh` recognizer can match. */
  lemma PshRecognizerReads(lit: Literals, s: string, x: Instr, rem: string)
    requires "psh " <= s && Recognize(lit, OpcodeOf(x), s) == Some((x, rem))
    ensures x.Psh? && lit.double(s[4..]) == Some((x.value, rem))
  {
    var op := OpcodeOf(x);
    assert Opcodes.Token(Opcodes.Psh) == "psh ";
    if op != Opcodes.Psh {
      TokensOnSameInput(op, Opcodes.Psh, s);
      assert false;
    }
    assert Recognize(lit, Opcodes.Psh, s) == RecognizePsh(lit, s);
  }
  /** A bare recognizer's reading of a line does not depend on what follows the line. */
  lemma BareLineLocal(lit: Literals, op: Opcodes.Opcode, line: string, rest: string, t: string, x: Instr)
    requires Opcodes.ShapeOf(op) == Opcodes.Bare
    requires Recognize(lit, op, line + rest) == Some((x, "\n" + rest))
    ensures Recognize(lit, op, line + t) == Some((x, "\n" + t))
  {
    var m := Opcodes.Mnemonic(op);
    assert line + rest == (m + "\n") + rest;
    assert line == (line + rest)[..|line|] == m + "\n";
    assert line + t == m + ("\n" + t);
  }

  /** Likewise for a numeric recognizer: the digit run ends at the line's newline. */
  lemma UIntLineLocal(lit: Literals, op: Opcodes.Opcode, line: string, rest: string, t: string, x: Instr)
    requires Opcodes.ShapeOf(op) == Opcodes.UIntOperand
    requires Recognize(lit, op, line + rest) == Some((x, "\n" + rest))
    ensures Recognize(lit, op, line + t) == Some((x, "\n" + t))
  {
    var ds := UIntReadSplit(lit, op, line + rest, x, "\n" + rest);
    UIntLineRun(lit, op, line, rest, t, ds);
  }

  /** The line of a numeric read is the token, the run and the newline, so the
      same run is read whatever follows the line. */
  lemma UIntLineRun(lit: Literals, op: Opcodes.Opcode, line: string, rest: string, t: string, ds: string)
    requires Opcodes.ShapeOf(op) == Opcodes.UIntOperand
    requires line + rest == Opcodes.Token(op) + ds + ("\n" + rest)
    requires AllDigits(ds) && ds != [] && DecimalValue(ds) <= lit.uintMax
    ensures RecognizeUInt(lit, op, line + t) == Some((UIntInstr(op, DecimalValue(ds)), "\n" + t))
  {
    var tok := Opcodes.Token(op);
    assert line + rest == (tok + ds + "\n") + rest;
    CancelSuffix(line, tok + ds + "\n", rest);
    assert line + t == tok + ds + ("\n" + t);
    UIntReadsRun(lit, op, ds, "\n" + t);
  }

  /** A successful numeric read splits its input into the token, the digit run
      it read, and what it left. */
  lemma UIntReadSplit(lit: Literals, op: Opcodes.Opcode, s: string, x: Instr, rem: string) returns (ds: string)
    requires Opcodes.ShapeOf(op) == Opcodes.UIntOperand
    requires RecognizeUInt(lit, op, s) == Some((x, rem))
    ensures s == Opcodes.Token(op) + ds + rem
    ensures AllDigits(ds) && (rem == [] || !IsDigit(rem[0]))
    ensures ds != [] && DecimalValue(ds) <= lit.uintMax && x == UIntInstr(op, DecimalValue(ds))
  {
    var tok := Opcodes.Token(op);
    ds := Digit1(s[|tok|..]).value.0;
    assert s[|tok|..] == ds + rem;
    assert s == s[..|tok|] + s[|tok|..];
    UIntReadsRun(lit, op, ds, rem);
  }

  /** Likewise for `psh`: the float reader stops within the line and does not
      look past its newline. */
  lemma PshLineLocal(lit: Literals, line: string, rest: string, t: string, x: Instr)
    requires Recognize(lit, Opcodes.Psh, line + rest) == Some((x, "\n" + rest))
    ensures Recognize(lit, Opcodes.Psh, line + t) == Some((x, "\n" + t))
  {
    var s := line + rest;
    assert RecognizePsh(lit, s) == Some((x, "\n" + rest));
    var body := s[4..];
    var a := body[..|body| - |rest| - 1];
    assert lit.double(body) == Some((x.value, "\n" + rest));
    assert IsSuffix("\n" + rest, body) && '\n' !in a;
    assert body == a + "\n" + rest;
    assert lit.double(a + "\n" + rest) == Reattach(lit.double(a + "\n"), rest);
    assert lit.double(a + "\n") == Some((x.value, "\n"));
    assert lit.double(a + "\n" + t) == Reattach(lit.double(a + "\n"), t);
    assert line == s[..|line|] == "psh " + a + "\n";
    assert (line + t)[..4] == "psh " && (line + t)[4..] == a + "\n" + t;
  }

  /** Every recognizer reads a line, up to its newline, whatever follows it. */
  lemma RecognizerLineLocal(lit: Literals, line: string, rest: string, t: string, x: Instr)
    requires Recognize(lit, OpcodeOf(x), line + rest) == Some((x, "\n" + rest))
    ensures Recognize(lit, OpcodeOf(x), line + t) == Some((x, "\n" + t))
  {
    var op := OpcodeOf(x);
    match Opcodes.ShapeOf(op)
    case Bare => BareLineLocal(lit, op, line, rest, t, x);
    case UIntOperand => UIntLineLocal(lit, op, line, rest, t, x);
    case FloatOperand =>
      assert op == Opcodes.Psh;
      PshLineLocal(lit, line, rest, t, x);
  }

  /** `instruction` does not look past the newline that ends its line: the line
      it read, followed by any other text, reads as the same instruction. */
  lemma InstructionIgnoresRest(lit: Literals, line: string, rest: string, t: string, x: Instr)
    requires Instruction(lit, line + rest) == Some((x, rest))
    ensures Instruction(lit, line + t) == Some((x, t))
  {
    RecognizerLineLocal(lit, line, rest, t, x);
    OwnRecognizerLineReads(lit, line + t, x, t);
  }

  /** A line that reads on its own reads the same in front of any text. */
  lemma LineReadsAlone(lit: Literals, line: string, x: Instr, rest: string)
    requires Instruction(lit, line) == Some((x, []))
    ensures Instruction(lit, line + rest) == Some((x, rest))
  {
    assert line + [] == line;
    InstructionIgnoresRest(lit, line, [], rest, x);
  }

  /** A line whose own recognizer fails is rejected. */
  lemma OwnRecognizerFails(lit: Literals, op: Opcodes.Opcode, s: string)
    requires Opcodes.ShapeOf(op) != Opcodes.Bare && Opcodes.Token(op) <= s
    requires Recognize(lit, op, s).None?
    ensures Instruction(lit, s) == None
  {
    if Instruction(lit, s).Some? {
      var x, rest := Instruction(lit, s).value.0, Instruction(lit, s).value.1;
      InstructionIsOwnRecognizerThenNewline(lit, s, x, rest);
      OnlyOwnRecognizer(lit, op, OpcodeOf(x), s);
    }
  }

  /** After "sap ", "lsw ", "jmp ", "jiz " or "jnz " a sign is not part of the
      operand: the line is rejected. */
  lemma SignedOperandRejected(lit: Literals, op: Opcodes.Opcode, c: char, t: string)
    requires Opcodes.ShapeOf(op) == Opcodes.UIntOperand
    requires c == '-' || c == '+'
    ensures Instruction(lit, Opcodes.Token(op) + [c] + t) == None
  {
    var s := Opcodes.Token(op) + [c] + t;
    UIntReadsRun(lit, op, [], [c] + t);
    assert Opcodes.Token(op) + [] + ([c] + t) == s;
    OwnRecognizerFails(lit, op, s);
  }

  /** A digit run whose value does not fit the VM's operand type is rejected, not
      truncated. */
  lemma OversizedOperandRejected(lit: Literals, op: Opcodes.Opcode, ds: string, t: string)
    requires Opcodes.ShapeOf(op) == Opcodes.UIntOperand
    requires ds != [] && AllDigits(ds) && DecimalValue(ds) > lit.uintMax
    requires t == [] || !IsDigit(t[0])
    ensures Instruction(lit, Opcodes.Token(op) + ds + t) == None
  {
    UIntReadsRun(lit, op, ds, t);
    OwnRecognizerFails(lit, op, Opcodes.Token(op) + ds + t);
  }

  /** `alt` returns the first alternative that succeeds. */
  lemma {:induction false} FirstMatchAt(alts: Alternatives, order: seq<Opcodes.Opcode>, k: nat)
    requires k < |order| && alts(order[k]).Some?
    requires forall i :: 0 <= i < k ==> alts(order[i]).None?
    ensures FirstMatch(alts, order) == alts(order[k])
    decreases k
  {
    if k > 0 {
      assert forall i :: 0 <= i < k - 1 ==> order[1..][i] == order[i + 1];
      FirstMatchAt(alts, order[1..], k - 1);
    }
  }

  /** Backtracking returns the first alternative that a newline follows. */
  lemma {:induction false} BacktrackingAt(alts: Alternatives, order: seq<Opcodes.Opcode>, k: nat)
    requires k < |order| && LineFollows(alts(order[k]))
    requires forall i :: 0 <= i < k ==> !LineFollows(alts(order[i]))
    ensures Backtracking(alts, order) == Some((alts(order[k]).value.0, alts(order[k]).value.1[1..]))
    decreases k
  {
    if k > 0 {
      assert forall i :: 0 <= i < k - 1 ==> order[1..][i] == order[i + 1];
      BacktrackingAt(alts, order[1..], k - 1);
    }
  }

  /** On "ptap\n" only `pta` and `ptap` match: `pta` leaving "p\n", `ptap`
      leaving the newline. */
  lemma PtapAlternatives(lit: Literals, op: Opcodes.Opcode)
    ensures Recognize(lit, op, "ptap\n").Some? ==> op == Opcodes.Pta || op == Opcodes.Ptap
    ensures Recognize(lit, Opcodes.Pta, "ptap\n") == Some((Pta, "p\n"))
    ensures Recognize(lit, Opcodes.Ptap, "ptap\n") == Some((Ptap, "\n"))
  {
    var s := "ptap\n";
    assert Opcodes.Token(Opcodes.Ptap) == "ptap" && Opcodes.Token(Opcodes.Pta) == "pta";
    assert s[4..] == "\n" && s[3..] == "p\n";
    if Recognize(lit, op, s).Some? && op != Opcodes.Ptap {
      TokensOnSameInput(op, Opcodes.Ptap, s);
    }
  }

  /** How the recognizers read "ptap\n": only `pta` and `ptap` match, `pta`
      leaving "p\n" and `ptap` leaving the newline. */
  ghost predicate SeesPtap(alts: Alternatives) {
    && alts(Opcodes.Pta) == Some((Pta, "p\n"))
    && alts(Opcodes.Ptap) == Some((Ptap, "\n"))
    && forall op :: op != Opcodes.Pta && op != Opcodes.Ptap ==> alts(op).None?
  }

  lemma RecognizersSeePtap(lit: Literals)
    ensures SeesPtap(RecognizersOn(lit, "ptap\n"))
  {
    forall op | op != Opcodes.Pta && op != Opcodes.Ptap
      ensures Recognize(lit, op, "ptap\n").None?
    {
      PtapAlternatives(lit, op);
    }
    PtapAlternatives(lit, Opcodes.Pta);
  }

  /** Any order that tries `pta` before `ptap` is not longest-first, and misreads
      "ptap\n": the alternation commits to `pta`, the newline check then fails,
      although backtracking would still have found `ptap`. */
  lemma OrderMatters(alts: Alternatives, order: seq<Opcodes.Opcode>, i: nat, j: nat)
    requires SeesPtap(alts)
    requires i < j < |order| && order[i] == Opcodes.Pta && order[j] == Opcodes.Ptap
    requires forall k :: 0 <= k < i ==> order[k] != Opcodes.Pta
    requires forall k :: 0 <= k < j ==> order[k] != Opcodes.Ptap
    ensures !Opcodes.LongestFirst(order)
    ensures Line(alts, order) == None
    ensures Backtracking(alts, order) == Some((Ptap, ""))
  {
    assert Opcodes.Token(Opcodes.Pta) <= Opcodes.Token(Opcodes.Ptap);
    assert forall k :: 0 <= k < i ==> alts(order[k]).None?;
    FirstMatchAt(alts, order, i);
    assert forall k :: 0 <= k < j ==> alts(order[k]).None? || order[k] == Opcodes.Pta;
    BacktrackingAt(alts, order, j);
    assert "\n"[1..] == "";
  }

  /** In the source's order, "ptap\n" reads as `ptap`. */
  lemma PtapReadsAsPtap(lit: Literals)
    ensures Instruction(lit, "ptap\n") == Some((Ptap, ""))
  {
    PtapAlternatives(lit, Opcodes.Ptap);
    assert "\n" + "" == "\n";
    OwnRecognizerLineReads(lit, "ptap\n", Ptap, "");
  }

  /** Mnemonics are lower-case: a line that does not start with a lower-case
      letter (including the empty input) is rejected. */
  lemma NotLowerCaseRejected(lit: Literals, s: string)
    requires s == [] || !Opcodes.IsLetter(s[0])
    ensures Instruction(lit, s) == None
  {
    if Instruction(lit, s).Some? {
      InstructionConsumes(lit, s);
      Opcodes.TokenShape(OpcodeOf(Instruction(lit, s).value.0));
    }
  }

  /** Once a bare mnemonic has matched, a missing newline fails the whole line:
      no later alternative is tried. (When the mnemonic is "pta", the input must
      not spell "ptap", which is tried first.) */
  lemma BareWithoutNewlineRejected(lit: Literals, op: Opcodes.Opcode, s: string)
    requires Opcodes.ShapeOf(op) == Opcodes.Bare && Opcodes.Token(op) <= s
    requires !NewlineFirst(s[|Opcodes.Token(op)|..])
    requires op == Opcodes.Pta ==> !("ptap" <= s)
    ensures Instruction(lit, s) == None
  {
    if Instruction(lit, s).Some? {
      var x, rest := Instruction(lit, s).value.0, Instruction(lit, s).value.1;
      var b := OpcodeOf(x);
      InstructionIsOwnRecognizerThenNewline(lit, s, x, rest);
      NoOtherBareLine(op, b, s);
    }
  }

  /** The token-level half of the lemma above: any other token that starts `s`
      is bare and not followed by a newline either. */
  lemma NoOtherBareLine(op: Opcodes.Opcode, b: Opcodes.Opcode, s: string)
    requires Opcodes.ShapeOf(op) == Opcodes.Bare && Opcodes.Token(op) <= s
    requires !NewlineFirst(s[|Opcodes.Token(op)|..])
    requires op == Opcodes.Pta ==> !("ptap" <= s)
    requires Opcodes.Token(b) <= s
    ensures b != op ==> Opcodes.ShapeOf(b) == Opcodes.Bare && !NewlineFirst(s[|Opcodes.Token(b)|..])
  {
    if b != op {
      TokensOnSameInput(op, b, s);
      assert Opcodes.Token(Opcodes.Pta) == "pta" && Opcodes.Token(Opcodes.Ptap) == "ptap";
      if b == Opcodes.Pta {
        assert s[3] == "ptap"[3];
      }
    }
  }

  /** An operand must be followed by the newline: a digit run that stops at
      any other character fails the line. */
  lemma UIntWithoutNewlineRejected(lit: Literals, op: Opcodes.Opcode, ds: string, t: string)
    requires Opcodes.ShapeOf(op) == Opcodes.UIntOperand
    requires AllDigits(ds)
    requires t == [] || (!IsDigit(t[0]) && t[0] != '\n')
    ensures Instruction(lit, Opcodes.Token(op) + ds + t) == None
  {
    var s := Opcodes.Token(op) + ds + t;
    if Instruction(lit, s).Some? {
      var x, rest := Instruction(lit, s).value.0, Instruction(lit, s).value.1;
      InstructionIsOwnRecognizerThenNewline(lit, s, x, rest);
      OnlyOwnRecognizer(lit, op, OpcodeOf(x), s);
      UIntReadsRun(lit, op, ds, t);
    }
  }
}
