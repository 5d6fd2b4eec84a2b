# mplvm_parser in Dafny

A model of the parser in `src/lib.rs` of mplvm_parser. The parser reads the
assembly language of the mpl_vm stack machine, one instruction per line, into
a program (a sequence of `mpl_vm::Instructions`). It is built from nom
combinators:

- each opcode has a recognizer: `tag(name)` for the bare opcodes, `tag("name ")`
  followed by `map_res(digit1, str::parse)` for the five opcodes with an unsigned
  operand, and `tag("psh ")` followed by nom's `double` for `psh`;
- `instruction` is `terminated(alt(...), newline)` over the 28 recognizers in a
  fixed order;
- `program` is `terminated(many0(instruction), eof)`;
- the public entry points `parse`/`try_parse` read a program, and
  `parse_instruction`/`try_parse_instruction` read one line. The `parse_*`
  functions abort where the `try_*` functions return `None`.

The modules follow that structure:

- `Wrappers` holds `Option`.
- `Opcodes` holds the opcode names, their tokens and the order the alternation tries them in.
- `Instructions` holds the instruction datatype.
- `Lexical` holds `digit1` and the decimal reading of `str::parse`.
- `Grammar` holds the recognizers, `alt` and `terminated(..., newline)`.
- `Programs` holds `many0` and `eof`, generic over any line reader that makes progress.
- `Api` holds the four entry points.
- `Render` is a serialiser and the round trip through the parser.
- `Samples` holds concrete lines and programs.

Two points matter most.

- `alt` commits to the first alternative that matches, and only then is the
  newline checked. The model proves that this agrees with a backtracking
  reading (the first alternative followed by a newline) for every order in
  which no token is a prefix of a later one. The source's order is such an
  order: "ptap" is tried before "pta". The model also proves the two readings
  differ on "ptap\n" for any order that tries `pta` first.
- nom's `double` and the width of mpl_vm's unsigned operand are outside this
  source. They are parameters, `Literals.double` and `Literals.uintMax`.

## Model

| member | source | states |
|---|---|---|
| Opcodes.Mnemonic | src/lib.rs:21-37 | the text a recognizer looks for (the function's name, "mod" for `_mod`) is a lower-case word of three or four letters |
| Opcodes.TokenShape | src/lib.rs:21-37 | a token is three or four lower-case letters, followed by a space exactly when the opcode takes an operand |
| Opcodes.TokenPrefixFree | src/lib.rs:102-133 | of two different tokens, one is a prefix of the other only for `pta` and `ptap` |
| Opcodes.DispatchOrderListsEachOnce | src/lib.rs:61-93 | the alternation order tries every recognizer, and each exactly once |
| Opcodes.Rank | src/lib.rs:61-93 | every opcode has a position in the alternation order |
| Opcodes.DispatchOrderIsLongestFirst | src/lib.rs:61-93 | in the source's order no token is a prefix of a token tried after it |
| Instructions.OperandFitsShape | src/lib.rs:97-133 | an instruction carries no operand, an unsigned operand or a float exactly when its opcode's recognizer is bare, numeric or `psh` |
| Instructions.BareInstr | src/lib.rs:21-28 | a bare recognizer's variant has that opcode and no operand |
| Instructions.UIntInstr | src/lib.rs:30-37 | a numeric recognizer's variant has that opcode and carries the value read |
| Lexical.Digit1 | src/lib.rs:33 | `digit1` succeeds exactly when the input starts with a digit, and then splits it into a maximal non-empty digit run and the rest |
| Lexical.DecimalValue | src/lib.rs:33 | the value `str::parse` gives a digit run, most significant digit first; a leading zero does not change it |
| Lexical.ParseUInt | src/lib.rs:33 | a digit run parses exactly when its decimal value fits the operand type, and then to that value |
| Lexical.DecimalString | src/lib.rs:33 | every value has a digit spelling that reads back as that value, with no leading zero |
| Lexical.LeadingDigitsOfRun | src/lib.rs:33 | a digit run followed by a non-digit is read as exactly that run |
| Grammar.RecognizeBare | src/lib.rs:21-28 | a bare recognizer succeeds exactly when its mnemonic starts the input, returns its variant, and consumes only the mnemonic |
| Grammar.RecognizeUInt | src/lib.rs:30-37 | a numeric recognizer's success consumes its token and returns its opcode with an operand within the type's bound |
| Grammar.UIntReadsRun | src/lib.rs:30-37 | after the token, a digit run followed by a non-digit is read exactly when it is non-empty and fits; its value is the operand and the rest is left |
| Grammar.RecognizePsh | src/lib.rs:97-100 | `psh` succeeds exactly when "psh " starts the input and the float reader reads what follows, and it returns a `Psh` |
| Grammar.Recognize | src/lib.rs:102-133 | any recognizer's success is an instruction of its own opcode that has consumed the token; a bare one leaves exactly what follows the mnemonic |
| Grammar.RecognizersGuarded | src/lib.rs:21-37 | on any input, every recognizer's match starts with its token and leaves a suffix of what follows it; a bare one leaves exactly what follows its mnemonic |
| Grammar.FirstMatch | src/lib.rs:61-93 | `alt`'s result is the result of one of its alternatives, of that alternative's opcode |
| Grammar.FirstMatchFailsIffAllFail | src/lib.rs:61-93 | `alt` fails exactly when every alternative fails |
| Grammar.FirstMatchAt | src/lib.rs:61-93 | `alt` returns the first alternative that succeeds |
| Grammar.Line | src/lib.rs:60-95 | a line is `alt`'s match when a newline follows it, minus that newline; it fails exactly when `alt` fails or no newline follows |
| Grammar.LineConsumesTokenAndNewline | src/lib.rs:60-95 | in any order, a line consumes its token and ends with a newline |
| Grammar.Instruction | src/lib.rs:60-95 | whatever `instruction` reads, its own opcode's recognizer read it, followed by the newline `instruction` consumed |
| Grammar.InstructionConsumes | src/lib.rs:60-95 | `instruction` consumes at least four characters: a token and a newline |
| Grammar.TokensOnSameInput | src/lib.rs:102-133 | two different tokens that both start one input are `pta` and `ptap` |
| Grammar.EarlierMatchBlocksLaterLine | src/lib.rs:60-95 | in a longest-first order, once an alternative matches, no later alternative's match is followed by a newline |
| Grammar.LongestFirstBlocks | src/lib.rs:60-95 | in a longest-first order, once an alternative matches, no later alternative's match is followed by a newline, for every pair of positions |
| Grammar.NoLineNoBacktracking | src/lib.rs:60-95 | when no alternative's match is followed by a newline, backtracking finds no line either |
| Grammar.CommitAgreesWithBacktracking | src/lib.rs:60-95 | checking the newline after `alt` commits gives the same result as backtracking over alternatives |
| Grammar.BacktrackingFindsLine | src/lib.rs:60-95 | under a longest-first order, any alternative followed by a newline is the line that backtracking reads |
| Grammar.BacktrackingAt | src/lib.rs:60-95 | backtracking reads the first alternative that a newline follows |
| Grammar.LineIsOwnAlternative | src/lib.rs:60-95 | in a longest-first order, a line reads `x` exactly when `x`'s own recognizer reads `x` followed by a newline |
| Grammar.InstructionIsOwnRecognizerThenNewline | src/lib.rs:60-95 | `instruction` reads `x` exactly when `x`'s own recognizer reads `x` and a newline follows |
| Grammar.OwnRecognizerLineReads | src/lib.rs:60-95 | a recognizer match followed by a newline is what `instruction` reads |
| Grammar.OnlyOwnRecognizer | src/lib.rs:60-95 | on input that starts with an operand token, no other recognizer matches |
| Grammar.OwnRecognizerFails | src/lib.rs:60-95 | on input that starts with an operand token, if its recognizer fails the line is rejected |
| Grammar.SignedOperandRejected | src/lib.rs:33 | a sign before an unsigned operand rejects the line |
| Grammar.OversizedOperandRejected | src/lib.rs:33 | an operand larger than the operand type rejects the line rather than being truncated |
| Grammar.PtapAlternatives | src/lib.rs:103-105 | on "ptap\n" only `pta` and `ptap` match; `pta` leaves "p\n" and `ptap` leaves the newline |
| Grammar.RecognizersSeePtap | src/lib.rs:103-105 | the source's recognizers on "ptap\n" behave as the previous row states |
| Grammar.OrderMatters | src/lib.rs:65-66 | an order that tries `pta` before `ptap` is not longest-first, rejects "ptap\n", and differs from backtracking there |
| Grammar.PtapReadsAsPtap | src/lib.rs:65-66 | in the source's order, "ptap\n" reads as `ptap` |
| Grammar.PshLineReadsOperand | src/lib.rs:97-100 | a line starting "psh " that `instruction` reads is a `psh` whose float the reader read up to the newline |
| Grammar.PshRecognizerReads | src/lib.rs:97-100 | on input starting "psh ", only the `psh` recognizer matches, and its result is the float reader's value and remainder |
| Grammar.BareLineLocal | src/lib.rs:21-28 | a bare recognizer reads a line the same whatever follows the line |
| Grammar.UIntLineLocal | src/lib.rs:30-37 | a numeric recognizer reads a line the same whatever follows the line: its digit run ends at the newline |
| Grammar.PshLineLocal | src/lib.rs:97-100 | `psh` reads a line the same whatever follows the line |
| Grammar.RecognizerLineLocal | src/lib.rs:97-133 | every recognizer reads a line, up to its newline, the same whatever follows it |
| Grammar.InstructionIgnoresRest | src/lib.rs:60-95 | the line `instruction` read, followed by any other text, reads as the same instruction, leaving that text |
| Grammar.LineReadsAlone | src/lib.rs:60-95 | a line that `instruction` reads on its own, with nothing left, reads as the same instruction in front of any text, leaving that text |
| Grammar.NotLowerCaseRejected | src/lib.rs:24 | a line that does not start with a lower-case letter is rejected; mnemonics are case-sensitive |
| Grammar.NoOtherBareLine | src/lib.rs:60-95 | where a bare token starts the input and no newline follows it, any other matching token is bare and has no newline after it either |
| Grammar.BareWithoutNewlineRejected | src/lib.rs:94 | a bare mnemonic followed by anything but a newline rejects the line; the exception is `pta` on input starting "ptap", where the `ptap` recognizer decides |
| Grammar.UIntWithoutNewlineRejected | src/lib.rs:94 | an operand's digit run followed by anything but a newline or a digit rejects the line |
| Programs.Many | src/lib.rs:56 | `many0` never fails, leaves a suffix of its input, and stops exactly where no further line can be read |
| Programs.ProgramParse | src/lib.rs:55-58 | `program` succeeds only with nothing left over, and reads empty input as the empty program |
| Programs.OneLine | src/lib.rs:56 | a single line read by the reader is a one-line program text |
| Programs.ManyReadsLines | src/lib.rs:56 | text that reads line by line as `prog` and then stops is read by `many0` as exactly `prog` |
| Programs.LinesOfConcat | src/lib.rs:56 | the lines `many0` consumed, followed by where it stopped, make up its input |
| Programs.ManySplitsIntoLines | src/lib.rs:56 | what `many0` reads splits into the lines it consumed, each reading as the next instruction |
| Programs.ProgramAcceptsLines | src/lib.rs:55-58 | a concatenation of instruction lines is accepted as their instructions in order |
| Programs.AcceptedProgramIsLines | src/lib.rs:55-58 | every accepted text is such a concatenation |
| Programs.ResidueRejected | src/lib.rs:55-58 | well-formed lines followed by text that is no line reject the whole program; there is no partial result |
| Api.ManyIsShort | src/lib.rs:56 | each instruction `many0` reads takes at least four characters |
| Api.ProgramIsShort | src/lib.rs:55-58 | an accepted program has at most a quarter as many instructions as its text has characters |
| Api.ProgramOf | src/lib.rs:55-58 | `program` succeeds only at the end of input, and reads empty input |
| Api.TryParse | src/lib.rs:43-45 | `try_parse`'s program has at most a quarter as many instructions as the input has characters |
| Api.Parse | src/lib.rs:39-41 | `parse` is defined exactly where it does not abort, and then agrees with `try_parse` |
| Api.TryParseInstruction | src/lib.rs:51-53 | `try_parse_instruction`'s result is an instruction whose token starts the input |
| Api.ParseInstruction | src/lib.rs:47-49 | `parse_instruction` is defined exactly where it does not abort, and then agrees with `try_parse_instruction` |
| Api.StrictLenientAgree | src/lib.rs:39-53 | the lenient entry points return `None` exactly where the strict ones abort |
| Api.TryParseIsLines | src/lib.rs:43-45 | any split of the input into lines that read as `prog` in order makes `try_parse` give `prog`; conversely, `try_parse` gives `prog` only when the lines `many0` consumed make up the input and read as `prog` |
| Api.TryParseInstructionIgnoresRest | src/lib.rs:51-53 | for every line `instruction` reads, `try_parse_instruction` gives its instruction whatever follows the newline |
| Api.LinesReadAlone | src/lib.rs:56 | lines that each read on their own as one instruction read line by line when concatenated |
| Api.ProgramOfLinesReadAlone | src/lib.rs:43-45 | a concatenation of lines that each read on their own is accepted as their instructions in order |
| Api.EmptyInputIsEmptyProgram | src/lib.rs:55-58 | empty input is the empty program |
| Api.PshLineReads | src/lib.rs:97-100 | "psh " and a literal the float reader reads up to a newline is a `Psh` line |
| Api.PshOperandEndsAtNewline | src/lib.rs:98 | where the float reader stops at a newline, it has read exactly the operand before the first newline |
| Api.PshLineThenResidue | src/lib.rs:55-58 | text that starts "psh ", an operand and a newline, and continues with something that does not start with a lower-case letter, is rejected as a whole |
| Api.PshThenResidueRejected | src/lib.rs:55-58 | a `psh` line followed by text that does not start with a lower-case letter is rejected as a whole, whatever the float reader does |
| Api.PartialProgramRejected | src/lib.rs:43-45 | "psh 1.0\nXXX\n" is rejected, whatever value the float reader gives |
| Render.RecognizeRendered | src/lib.rs:97-133 | each opcode's recognizer reads its instruction back from the rendered line and leaves the newline |
| Render.RecognizeRenderedBare | src/lib.rs:21-28 | a bare instruction's rendered line is read back by its recognizer |
| Render.RecognizeRenderedUInt | src/lib.rs:30-37 | a numeric instruction's rendered line is read back by its recognizer when the operand fits |
| Render.RecognizeRenderedPsh | src/lib.rs:97-100 | a `psh` line is read back when the float reader reads its spelling |
| Render.LineReadsBack | src/lib.rs:60-95 | `instruction` reads a rendered line back as its instruction, whatever follows |
| Render.SingleInstructionIgnoresRest | src/lib.rs:51-53 | `try_parse_instruction` reads the first rendered line and ignores the rest |
| Render.RenderedLinesRead | src/lib.rs:56 | a rendered program reads back line by line as the program |
| Render.RoundTrip | src/lib.rs:43-45 | `try_parse` of a rendered program is the program |
| Render.RoundTripWithoutPsh | src/lib.rs:43-45 | without `psh`, the round trip needs only that every operand fits |
| Samples.RenderedLine | src/lib.rs:60-95 | a rendered line alone reads as its instruction |
| Samples.BareLine | src/lib.rs:21-28 | a bare mnemonic and a newline read as its instruction |
| Samples.PtaLine | src/lib.rs:103 | "pta\n" reads as `pta`, although "ptap" is tried first |
| Samples.JmpaLine | src/lib.rs:130 | "jmpa\n" reads as `jmpa`, although "jmp " is tried first |
| Samples.JizaLine | src/lib.rs:131 | "jiza\n" reads as `jiza` |
| Samples.JnzaLine | src/lib.rs:132 | "jnza\n" reads as `jnza` |
| Samples.SapLine | src/lib.rs:106 | "sap 3\n" reads as `sap 3` when 3 fits the operand type |
| Samples.UnterminatedRetRejected | src/lib.rs:94 | "ret" without a newline is rejected |
| Samples.PtaxRejected | src/lib.rs:94 | "ptax\n" is rejected: `pta` matches and then the newline is missing |
| Samples.TrailingLetterRejected | src/lib.rs:33 | "sap 1a\n" is rejected |
| Samples.NegativeOperandRejected | src/lib.rs:33 | "sap -1\n" is rejected |
| Samples.UpperCaseRejected | src/lib.rs:24 | "PSH 1\n" is rejected |
| Samples.JumpPastBoundRejected | src/lib.rs:33 | with operands of at most 9, "jmp 10\n" is rejected |
| Samples.RetThenJunk | src/lib.rs:51-53 | `try_parse_instruction("ret\nzzz")` is `ret` |
| Samples.PaddedOperandThenJunk | src/lib.rs:51-53 | `try_parse_instruction("sap 007\nzzz")` is `sap 7` when 7 fits |
| Samples.TwoPshLines | src/lib.rs:55-58 | "psh 1\npsh 1\n" reads as two `psh` instructions whenever the float reader reads "1" on its own line |
| Samples.SmallProgram | src/lib.rs:43-45 | "sap 3\njmp 0\nret\n" reads as `[sap 3, jmp 0, ret]` |

## Left out

- nom's `double` is a parameter, `Literals.double`. The model assumes only that
  the reader consumes a prefix of its input that holds no newline, and that
  it does not look past the first newline: on a line followed by more text it
  gives what it gives on the line alone. Which float spellings it accepts,
  and the values it gives, are not modelled.
- The float payload of `psh` is an uninterpreted 64-bit pattern (`bv64`). Only
  equality of payloads is used; floating-point arithmetic is not modelled.
- The integer type of mpl_vm's operands is not part of this model. Its largest
  value is the parameter `Literals.uintMax`. `str::parse` fails above it, and
  the line is then rejected.
- The panics of `parse` ("parsing faled") and `parse_instruction` (`unwrap`) are
  preconditions. `Api.Parse` and `Api.ParseInstruction` are defined exactly where
  the source does not panic.
- nom's error values (`Err::Error` and its error kinds) collapse to `None`.
  Which error nom reports is not modelled. An `Err::Failure` from `double` would
  stop `alt` at `psh`, the first alternative, but it also collapses to `None`:
  no other recognizer matches input that starts with "psh ", so the line fails
  either way.
- `many0` reports an error when its parser succeeds without consuming input.
  `Grammar.InstructionConsumes` shows that `instruction` always consumes, so
  that branch cannot happen and is not modelled.
- `mpl_vm::Program::from` is modelled as the identity: a program is the
  sequence of its instructions. The VM itself is not part of this model.
- `Render` is not in the source; it is the reference serialiser against which the
  round trip is stated.
