/**
 * The opcodes of the stack VM's assembly language, the literal text each
 * recognizer looks for, and the fixed order in which the dispatcher tries them.
 */
module Opcodes {

  /** One opcode per recognizer (the Rust functions `psh`, `pfa`, ..., `ret`). */
  datatype Opcode =
    | Psh | Pfa | Pta | Gap | Ptap | Sap | Pek | Inp | Dup | Pop | Swp | Lsw
    | Add | Sub | Mul | Div | Mod | Abs | Max | Min
    | Jmp | Jiz | Jnz | Ipta | Jmpa | Jiza | Jnza | Ret

  /** What a recognizer reads after its mnemonic. */
  datatype Shape =
    | Bare          // nothing: `tag(name)`
    | UIntOperand   // one space, then a run of decimal digits
    | FloatOperand  // one space, then a floating literal (only `psh`)

  /** The mnemonic: the Rust function's name, except `_mod`, which reads "mod".
      Every mnemonic is a lower-case word of three or four letters. */
  function Mnemonic(op: Opcode): (m: string)
    ensures 3 <= |m| <= 4
    ensures forall k :: 0 <= k < |m| ==> IsLetter(m[k])
  {
    match op
    case Psh => "psh"
    case Pfa => "pfa"
    case Pta => "pta"
    case Gap => "gap"
    case Ptap => "ptap"
    case Sap => "sap"
    case Pek => "pek"
    case Inp => "inp"
    case Dup => "dup"
    case Pop => "pop"
    case Swp => "swp"
    case Lsw => "lsw"
    case Add => "add"
    case Sub => "sub"
    case Mul => "mul"
    case Div => "div"
    case Mod => "mod"
    case Abs => "abs"
    case Max => "max"
    case Min => "min"
    case Jmp => "jmp"
    case Jiz => "jiz"
    case Jnz => "jnz"
    case Ipta => "ipta"
    case Jmpa => "jmpa"
    case Jiza => "jiza"
    case Jnza => "jnza"
    case Ret => "ret"
  }

  /** Which macro generated the recognizer (or the hand-written `psh`). */
  function ShapeOf(op: Opcode): Shape {
    match op
    case Psh => FloatOperand
    case Sap | Lsw | Jmp | Jiz | Jnz => UIntOperand
    case _ => Bare
  }

  /** The literal text a recognizer demands before any operand: the mnemonic,
      followed by one space when an operand comes next. */
  function Token(op: Opcode): string {
    if ShapeOf(op) == Bare then Mnemonic(op) else Mnemonic(op) + " "
  }

  predicate IsLetter(c: char) {
    'a' <= c <= 'z'
  }

  /** The order of the alternatives in `instruction`: the two nested `alt`s flattened. */
  const DispatchOrder: seq<Opcode> :=
    [ Psh, Pfa, Ptap, Pta, Gap, Sap, Pek, Inp, Dup, Pop, Swp, Lsw,
      Add, Sub, Mul, Div, Mod, Abs, Max, Min,
      Jmp, Jiz, Jnz, Ipta, Jmpa, Jiza, Jnza, Ret ]

  /** An order in which no alternative's token is a prefix of the token of an
      alternative tried after it: where two tokens overlap, the longer goes first. */
  ghost predicate LongestFirst(order: seq<Opcode>) {
    forall i, j :: 0 <= i < j < |order| ==> !(Token(order[i]) <= Token(order[j]))
  }

  /** A token is letters, except that it ends in a space exactly when an operand follows. */
  lemma TokenShape(op: Opcode)
    ensures ShapeOf(op) == Bare ==> 3 <= |Token(op)| <= 4
    ensures ShapeOf(op) != Bare ==> 4 <= |Token(op)| <= 5
    ensures forall k :: 0 <= k < |Token(op)| - 1 ==> IsLetter(Token(op)[k])
    ensures ShapeOf(op) == Bare ==> IsLetter(Token(op)[|Token(op)| - 1])
    ensures ShapeOf(op) != Bare ==> Token(op)[|Token(op)| - 1] == ' '
  {
  }

  /** Position of each opcode in the dispatch order. */
  function Rank(op: Opcode): (k: nat)
    ensures k < |DispatchOrder| && DispatchOrder[k] == op
  {
    match op
    case Psh => 0
    case Pfa => 1
    case Ptap => 2
    case Pta => 3
    case Gap => 4
    case Sap => 5
    case Pek => 6
    case Inp => 7
    case Dup => 8
    case Pop => 9
    case Swp => 10
    case Lsw => 11
    case Add => 12
    case Sub => 13
    case Mul => 14
    case Div => 15
    case Mod => 16
    case Abs => 17
    case Max => 18
    case Min => 19
    case Jmp => 20
    case Jiz => 21
    case Jnz => 22
    case Ipta => 23
    case Jmpa => 24
    case Jiza => 25
    case Jnza => 26
    case Ret => 27
  }

  /** The only token that is a prefix of another opcode's token is "pta", of "ptap". */
  lemma TokenPrefixFree(a: Opcode, b: Opcode)
    requires a != b && Token(a) <= Token(b)
    ensures a == Pta && b == Ptap
  {
    TokenShape(a);
    TokenShape(b);
    var t, u := Token(a), Token(b);
    assert t[0] == u[0] && t[1] == u[1] && t[2] == u[2];
    match b
    case Ptap =>
    case _ =>
  }

  /** Rank reads positions back: the dispatch order lists each opcode once. */
  lemma RankOfPosition(k: nat)
    requires k < |DispatchOrder|
    ensures Rank(DispatchOrder[k]) == k
  {
  }

  /** The alternation tries every recognizer, and each one once. */
  lemma DispatchOrderListsEachOnce()
    ensures forall op :: op in DispatchOrder
    ensures forall i, j :: 0 <= i < j < |DispatchOrder| ==> DispatchOrder[i] != DispatchOrder[j]
  {
    forall op: Opcode
      ensures op in DispatchOrder
    {
      var k := Rank(op);
      assert DispatchOrder[k] == op;
    }
    forall i, j | 0 <= i < j < |DispatchOrder|
      ensures DispatchOrder[i] != DispatchOrder[j]
    {
      RankOfPosition(i);
      RankOfPosition(j);
    }
  }

  lemma DispatchOrderIsLongestFirst()
    ensures LongestFirst(DispatchOrder)
  {
    forall i, j | 0 <= i < j < |DispatchOrder|
      ensures !(Token(DispatchOrder[i]) <= Token(DispatchOrder[j]))
    {
      var a, b := DispatchOrder[i], DispatchOrder[j];
      if Token(a) <= Token(b) {
        RankOfPosition(i);
        RankOfPosition(j);
        TokenPrefixFree(a, b);
        assert false;
      }
    }
  }
}
