/** The instruction tree the parser builds and the assembler consumes
    (asm_6502/grammar.py: `Addressing`, the expression tuples, KEYWORDS and PSEUDOS). */
module Syntax {
  import opened Integers
  import opened Outcomes

  datatype Register = A | X | Y

  /** Binary operators of the expression language; `*` is written CUR in the grammar. */
  datatype BinOp = Plus | Minus | Times | Over

  /** An address expression: a folded literal, the current position `*`, a label, a
      lazy binary operation, or a lazy low/high byte extraction (from `#LO`/`#HI`). */
  datatype Expr =
    | Lit(number: Integer)
    | Cur
    | LabelRef(name: string)
    | Bin(op: BinOp, left: Expr, right: Expr)
    | Lo(arg: Expr)
    | Hi(arg: Expr)

  /** An operand in one of the parser's addressing modes. The Python tuple also tags the
      expression as INSTANT or ADDRESS; that tag is implied by the mode (INSTANT exactly
      for `Immediate`) and is not repeated here. */
  datatype Addressing =
    | Accumulator
    | Immediate(value: Expr)
    | Implied
    | Address(value: Expr)
    | Indirect(value: Expr)
    | Indexed(value: Expr, register: Register)
    | IndexedIndirect(value: Expr, register: Register)
    | IndirectIndexed(value: Expr, register: Register)
  {
    predicate HasOperand() {
      !Accumulator? && !Implied?
    }
  }

  /** One source statement: optional label, keyword (mnemonic or pseudo-op), operand,
      and the line of its first token. */
  datatype Instruction = Instruction(labelName: Option<string>, keyword: string, addressing: Addressing, line: int)

  /** PSEUDOS: the pseudo-ops the lexer also reads as keywords. */
  const Pseudos: set<string> := {"ORG", ".ORG", ".BYTE", ".WORD", ".END"}

  /** KEYWORDS, the 56 mnemonics of the 6502, as a table by first letter: whether
      `abc` spells one of them. */
  predicate MnemonicLetters(a: char, b: char, c: char) {
    match a
    case 'A' => (b == 'D' && c == 'C') || (b == 'N' && c == 'D') || (b == 'S' && c == 'L')
    case 'B' => (b == 'C' && c == 'C') || (b == 'C' && c == 'S') || (b == 'E' && c == 'Q') || (b == 'I' && c == 'T') || (b == 'M' && c == 'I') || (b == 'N' && c == 'E') || (b == 'P' && c == 'L') || (b == 'R' && c == 'K') || (b == 'V' && c == 'C') || (b == 'V' && c == 'S')
    case 'C' => (b == 'L' && c == 'C') || (b == 'L' && c == 'D') || (b == 'L' && c == 'I') || (b == 'L' && c == 'V') || (b == 'M' && c == 'P') || (b == 'P' && c == 'X') || (b == 'P' && c == 'Y')
    case 'D' => (b == 'E' && c == 'C') || (b == 'E' && c == 'X') || (b == 'E' && c == 'Y')
    case 'E' => (b == 'O' && c == 'R')
    case 'I' => (b == 'N' && c == 'C') || (b == 'N' && c == 'X') || (b == 'N' && c == 'Y')
    case 'J' => (b == 'M' && c == 'P') || (b == 'S' && c == 'R')
    case 'L' => (b == 'D' && c == 'A') || (b == 'D' && c == 'X') || (b == 'D' && c == 'Y') || (b == 'S' && c == 'R')
    case 'N' => (b == 'O' && c == 'P')
    case 'O' => (b == 'R' && c == 'A')
    case 'P' => (b == 'H' && c == 'A') || (b == 'H' && c == 'P') || (b == 'L' && c == 'A') || (b == 'L' && c == 'P')
    case 'R' => (b == 'O' && c == 'L') || (b == 'O' && c == 'R') || (b == 'T' && c == 'I') || (b == 'T' && c == 'S')
    case 'S' => (b == 'B' && c == 'C') || (b == 'E' && c == 'C') || (b == 'E' && c == 'D') || (b == 'E' && c == 'I') || (b == 'T' && c == 'A') || (b == 'T' && c == 'X') || (b == 'T' && c == 'Y')
    case 'T' => (b == 'A' && c == 'X') || (b == 'A' && c == 'Y') || (b == 'S' && c == 'X') || (b == 'X' && c == 'A') || (b == 'X' && c == 'S') || (b == 'Y' && c == 'A')
    case _ => false
  }

  /** Whether a word is a mnemonic or a pseudo-op, decided letter by letter. */
  predicate IsKeyword(w: string) {
    IsMnemonic(w) || w in Pseudos
  }

  /** Membership in KEYWORDS. */
  predicate IsMnemonic(w: string) {
    |w| == 3 && MnemonicLetters(w[0], w[1], w[2])
  }

  /** `LDA` and `.ORG` are keywords; `LDB`, `lda` and `ORG1` are not. */
  lemma KeywordExamples()
    ensures IsKeyword("LDA") && IsKeyword(".ORG") && IsKeyword("ORG")
    ensures !IsKeyword("LDB") && !IsKeyword("lda") && !IsKeyword("ORG1")
  {
  }

  /** The register rules the parser enforces on every operand it builds. */
  predicate RegistersLegal(a: Addressing) {
    match a
    case Indexed(_, r) => r == X || r == Y
    case IndexedIndirect(_, r) => r == X
    case IndirectIndexed(_, r) => r == Y
    case _ => true
  }

  /** Errors of the lexer and parser: `ParseError` in the source, plus the
      ZeroDivisionError raised when a literal division by zero is folded. */
  datatype ParseError =
    | IllegalCharacter(ch: char, line: int, column: int)
    | SyntaxError(line: int, column: int)
    | SyntaxErrorAtEof
    | NotAnAddress(register: Register, line: int, column: int)
    | NotAnIndex(register: Register, line: int, column: int)
    | NotIndexedIndirect(register: Register, line: int, column: int)
    | NotIndirectIndexed(register: Register, line: int, column: int)
    | ZeroDivision
}
