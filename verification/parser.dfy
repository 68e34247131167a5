/** The statement grammar of asm_6502/grammar.py and its semantic actions (`p_stat_*`,
    `p_numeric`, `p_arithmetic_*`, `p_error`). The parser is written by recursive descent
    over the token stream and follows the LALR table the grammar's precedence
    declarations produce: `+` and `-` bind loosest and group to the left, `*` (CUR) and
    `/` bind tighter and group to the left, unary minus binds tightest, and `*` at the
    start of an operand is the current position.

    The points at which errors arise follow that table too. A lookahead is read right
    after every token is consumed, so a lexical error stops the parse only when the
    parser reaches it. Every reduction inside an expression needs a lookahead that may
    follow an expression somewhere in the grammar, so a literal division by zero is
    reported only after such a lookahead has been read; the register checks fire only
    once the end of the statement is in sight. */
module Parser {
  import opened Integers
  import opened Outcomes
  import opened Syntax
  import opened Resolution
  import opened Lexer

  /** A parsed value and the index of the first token after it. */
  datatype Parsed<T> = Parsed(value: T, next: nat)

  // ---------------------------------------------------------------------------------
  // Semantic actions

  /** `p_arithmetic_binary_op`: two literals are folded with the `Integer` operator;
      anything else becomes a lazy node with the operands in source order. Folding a
      division by a literal zero is Python's ZeroDivisionError. */
  function Binary(op: BinOp, l: Expr, r: Expr): (e: Result<Expr, ParseError>)
    ensures e.Err? <==> l.Lit? && r.Lit? && op == Over && r.number.value == 0
    ensures e.Err? ==> e.error == ZeroDivision
    ensures e.Ok? ==> (e.value.Lit? <==> l.Lit? && r.Lit?)
    ensures e.Ok? && !(l.Lit? && r.Lit?) ==> e.value == Bin(op, l, r)
  {
    if l.Lit? && r.Lit? then
      match op
      case Plus => Ok(Lit(Add(l.number, r.number)))
      case Minus => Ok(Lit(Sub(l.number, r.number)))
      case Times => Ok(Lit(Mul(l.number, r.number)))
      case Over => if r.number.value == 0 then Err(ZeroDivision) else Ok(Lit(Div(l.number, r.number)))
    else
      Ok(Bin(op, l, r))
  }

  /** `p_arithmetic_uminus`: a literal is negated in place; anything else becomes
      `0 - e` with a byte-width zero. */
  function Negate(e: Expr): (r: Expr)
    ensures r.Lit? <==> e.Lit?
    ensures e.Lit? ==> r.number.isWord == e.number.isWord
    ensures !e.Lit? ==> r == Bin(Minus, Lit(Zero), e)
  {
    if e.Lit? then Lit(Neg(e.number)) else Bin(Minus, Lit(Zero), e)
  }

  /** `p_stat_val` for `#LO`/`#HI`: always an immediate operand; a literal is reduced to
      its byte at once, anything else is wrapped in a lazy byte selection. */
  function ByteSelect(low: bool, e: Expr): (a: Addressing)
    ensures a.Immediate?
    ensures e.Lit? ==> a.value.Lit? && !a.value.number.isWord && 0 <= a.value.number.value <= ByteMax
    ensures !e.Lit? ==> a.value == (if low then Lo(e) else Hi(e))
  {
    if e.Lit? then Immediate(Lit(if low then LowByte(e.number) else HighByte(e.number)))
    else Immediate(if low then Lo(e) else Hi(e))
  }

  /** `p_stat_val_accumulator`: a bare register is the accumulator, and only `A` is. */
  function AccumulatorAction(reg: Token): (r: Result<Addressing, ParseError>)
    requires reg.kind.RegisterTok?
    ensures r.Ok? <==> reg.kind.register == A
    ensures r.Ok? ==> r.value == Accumulator
    ensures r.Err? ==> r.error == NotAnAddress(reg.kind.register, reg.line, reg.column)
  {
    if reg.kind.register == A then Ok(Accumulator)
    else Err(NotAnAddress(reg.kind.register, reg.line, reg.column))
  }

  /** `p_stat_val_indexed`: `e,R` indexes by X or Y only. */
  function IndexedAction(e: Expr, reg: Token): (r: Result<Addressing, ParseError>)
    requires reg.kind.RegisterTok?
    ensures r.Ok? <==> reg.kind.register != A
    ensures r.Ok? ==> r.value == Indexed(e, reg.kind.register)
    ensures r.Err? ==> r.error == NotAnIndex(reg.kind.register, reg.line, reg.column)
  {
    if reg.kind.register != A then Ok(Indexed(e, reg.kind.register))
    else Err(NotAnIndex(reg.kind.register, reg.line, reg.column))
  }

  /** `p_stat_val_indexed_indirect`: `(e,R)` takes X only. */
  function IndexedIndirectAction(e: Expr, reg: Token): (r: Result<Addressing, ParseError>)
    requires reg.kind.RegisterTok?
    ensures r.Ok? <==> reg.kind.register == X
    ensures r.Ok? ==> r.value == IndexedIndirect(e, X)
    ensures r.Err? ==> r.error == NotIndexedIndirect(reg.kind.register, reg.line, reg.column)
  {
    if reg.kind.register == X then Ok(IndexedIndirect(e, X))
    else Err(NotIndexedIndirect(reg.kind.register, reg.line, reg.column))
  }

  /** `p_stat_val_indirect_indexed`: `(e),R` takes Y only. */
  function IndirectIndexedAction(e: Expr, reg: Token): (r: Result<Addressing, ParseError>)
    requires reg.kind.RegisterTok?
    ensures r.Ok? <==> reg.kind.register == Y
    ensures r.Ok? ==> r.value == IndirectIndexed(e, Y)
    ensures r.Err? ==> r.error == NotIndirectIndexed(reg.kind.register, reg.line, reg.column)
  {
    if reg.kind.register == Y then Ok(IndirectIndexed(e, Y))
    else Err(NotIndirectIndexed(reg.kind.register, reg.line, reg.column))
  }

  /** A fold computes what resolving the unfolded node would; a fold that fails is a
      node that could never be resolved. */
  lemma BinarySound(op: BinOp, l: Expr, r: Expr, labels: map<string, int>, current: int)
    ensures Binary(op, l, r).Ok? ==>
              Resolve(Binary(op, l, r).value, labels, current) == Resolve(Bin(op, l, r), labels, current)
    ensures Binary(op, l, r).Err? ==> Resolve(Bin(op, l, r), labels, current) == ZeroDivisor
  {
  }

  /** Negating in place resolves like subtracting from zero. */
  lemma NegateSound(e: Expr, labels: map<string, int>, current: int)
    ensures Resolve(Negate(e), labels, current) == Resolve(Bin(Minus, Lit(Zero), e), labels, current)
  {
  }

  /** Selecting a byte at parse time resolves like selecting it lazily. */
  lemma ByteSelectSound(low: bool, e: Expr, labels: map<string, int>, current: int)
    ensures Resolve(ByteSelect(low, e).value, labels, current) ==
            Resolve(if low then Lo(e) else Hi(e), labels, current)
  {
  }

  /** Every node whose operands were both literals has been folded, and a byte selection
      only ever appears at the top of an immediate operand. */
  predicate Folded(e: Expr) {
    match e
    case Bin(_, l, r) => !(l.Lit? && r.Lit?) && Folded(l) && Folded(r)
    case Lo(_) => false
    case Hi(_) => false
    case _ => true
  }

  /** Whether an expression refers to the current position. */
  predicate UsesCur(e: Expr) {
    match e
    case Cur => true
    case Bin(_, l, r) => UsesCur(l) || UsesCur(r)
    case Lo(a) => UsesCur(a)
    case Hi(a) => UsesCur(a)
    case _ => false
  }

  /** An expression without labels and without `*` is folded down to a literal: the
      parser leaves nothing for the assembler to compute in a constant. */
  lemma {:induction false} FoldedClosed(e: Expr)
    requires Folded(e) && Mentions(e) == {} && !UsesCur(e)
    ensures e.Lit?
  {
    match e
    case Bin(_, l, r) =>
      FoldedClosed(l);
      FoldedClosed(r);
    case _ =>
  }

  // ---------------------------------------------------------------------------------
  // Reading the token stream

  /** The lookahead at index `i`: a token, the end of the text (`None`), or the lexical
      error that stopped the lexer there. */
  function Peek(st: Stream, i: nat): (r: Result<Option<Token>, ParseError>)
    requires i <= |st.tokens|
    ensures r.Ok? && r.value.Some? <==> i < |st.tokens|
    ensures r.Ok? && r.value.Some? ==> r.value.value == st.tokens[i]
    ensures r.Err? <==> i == |st.tokens| && st.stop.Some?
  {
    if i < |st.tokens| then Ok(Some(st.tokens[i]))
    else if st.stop.Some? then Err(st.stop.value)
    else Ok(None)
  }

  /** `p_error`: a syntax error at the offending token, or at the end of the input. */
  function Unexpected(la: Option<Token>): ParseError {
    if la.Some? then SyntaxError(la.value.line, la.value.column) else SyntaxErrorAtEof
  }

  predicate Is(la: Option<Token>, k: TokenKind) {
    la.Some? && la.value.kind == k
  }

  /** NEWLINE or the end of the input: what may follow a statement. */
  predicate EndOfStatement(la: Option<Token>) {
    la.None? || la.value.kind.NewlineTok?
  }

  /** What may follow an expression somewhere in the grammar: the lookaheads on which
      the table reduces inside an expression. */
  predicate ArithFollow(la: Option<Token>) {
    EndOfStatement(la) || Is(la, CurTok) ||
    (la.value.kind.LiteralTok? && la.value.kind.ch in {'+', '-', '/', ',', ')', ']'})
  }

  /** The statement ending at `j` is followed by NEWLINE or by the end of the input. */
  predicate EndsStatement(st: Stream, j: nat) {
    (j == |st.tokens| && st.stop.None?) || (j < |st.tokens| && st.tokens[j].kind.NewlineTok?)
  }

  /** Reads the token at `j`, which must be of kind `k`. */
  function Expect(st: Stream, j: nat, k: TokenKind): (r: Result<Token, ParseError>)
    requires j <= |st.tokens|
    ensures r.Ok? ==> j < |st.tokens| && r.value == st.tokens[j] && r.value.kind == k
  {
    var la :- Peek(st, j);
    if Is(la, k) then Ok(la.value) else Err(Unexpected(la))
  }

  /** Reads the REGISTER token at `j`. */
  function ExpectRegister(st: Stream, j: nat): (r: Result<Token, ParseError>)
    requires j <= |st.tokens|
    ensures r.Ok? ==> j < |st.tokens| && r.value == st.tokens[j] && r.value.kind.RegisterTok?
  {
    var la :- Peek(st, j);
    if la.Some? && la.value.kind.RegisterTok? then Ok(la.value) else Err(Unexpected(la))
  }

  /** Reads the lookahead at `j`, which must end the statement. */
  function ExpectEnd(st: Stream, j: nat): (r: Result<(), ParseError>)
    requires j <= |st.tokens|
    ensures r.Ok? <==> EndsStatement(st, j)
  {
    var la :- Peek(st, j);
    if EndOfStatement(la) then Ok(()) else Err(Unexpected(la))
  }

  // ---------------------------------------------------------------------------------
  // Expressions (`arithmetic`)

  /** A completed operand: the table reduces it only on a lookahead that may follow an
      expression, and reports a syntax error at any other. */
  function Closed(st: Stream, j: nat, e: Expr): (r: Result<Parsed<Expr>, ParseError>)
    requires j <= |st.tokens|
    ensures r.Ok? ==> r.value == Parsed(e, j)
  {
    var la :- Peek(st, j);
    if ArithFollow(la) then Ok(Parsed(e, j)) else Err(Unexpected(la))
  }

  /** `arithmetic` at the loosest level: terms joined by `+` and `-`. */
  function Expression(st: Stream, i: nat): (r: Result<Parsed<Expr>, ParseError>)
    requires i <= |st.tokens|
    ensures r.Ok? ==> i < r.value.next <= |st.tokens| && Folded(r.value.value)
    decreases |st.tokens| - i, 3
  {
    var t :- Term(st, i);
    ExpressionTail(st, t.next, t.value)
  }

  function ExpressionTail(st: Stream, i: nat, left: Expr): (r: Result<Parsed<Expr>, ParseError>)
    requires i <= |st.tokens| && Folded(left)
    ensures r.Ok? ==> i <= r.value.next <= |st.tokens| && Folded(r.value.value)
    decreases |st.tokens| - i, 4
  {
    var la :- Peek(st, i);
    if Is(la, LiteralTok('+')) || Is(la, LiteralTok('-')) then
      var right :- Term(st, i + 1);
      // only a division can fail to fold
      var e := Binary(if Is(la, LiteralTok('+')) then Plus else Minus, left, right.value);
      ExpressionTail(st, right.next, e.value)
    else
      Ok(Parsed(left, i))
  }

  /** Factors joined by `*` and `/`. */
  function Term(st: Stream, i: nat): (r: Result<Parsed<Expr>, ParseError>)
    requires i <= |st.tokens|
    ensures r.Ok? ==> i < r.value.next <= |st.tokens| && Folded(r.value.value)
    decreases |st.tokens| - i, 2
  {
    var u :- Unary(st, i);
    TermTail(st, u.next, u.value)
  }

  function TermTail(st: Stream, i: nat, left: Expr): (r: Result<Parsed<Expr>, ParseError>)
    requires i <= |st.tokens| && Folded(left)
    ensures r.Ok? ==> i <= r.value.next <= |st.tokens| && Folded(r.value.value)
    decreases |st.tokens| - i, 4
  {
    var la :- Peek(st, i);
    if Is(la, CurTok) || Is(la, LiteralTok('/')) then
      var right :- Unary(st, i + 1);
      var e :- Binary(if Is(la, CurTok) then Times else Over, left, right.value);
      TermTail(st, right.next, e)
    else
      Ok(Parsed(left, i))
  }

  /** Unary minus, which groups to the right and binds tighter than any binary operator. */
  function Unary(st: Stream, i: nat): (r: Result<Parsed<Expr>, ParseError>)
    requires i <= |st.tokens|
    ensures r.Ok? ==> i < r.value.next <= |st.tokens| && Folded(r.value.value)
    decreases |st.tokens| - i, 1
  {
    var la :- Peek(st, i);
    if Is(la, LiteralTok('-')) then
      var operand :- Unary(st, i + 1);
      Ok(Parsed(Negate(operand.value), operand.next))
    else
      Primary(st, i)
  }

  /** `integer`, LABEL, CUR and `[ arithmetic ]`. */
  function Primary(st: Stream, i: nat): (r: Result<Parsed<Expr>, ParseError>)
    requires i <= |st.tokens|
    ensures r.Ok? ==> i < r.value.next <= |st.tokens| && Folded(r.value.value)
    decreases |st.tokens| - i, 0
  {
    var la :- Peek(st, i);
    if la.None? then Err(Unexpected(la))
    else
      match la.value.kind
      case IntTok(n) => Closed(st, i + 1, Lit(n))
      case LabelTok(name) => Closed(st, i + 1, LabelRef(name))
      case CurTok => Closed(st, i + 1, Cur)
      case LiteralTok(c) =>
        if c == '[' then
          var inner :- Expression(st, i + 1);
          var close :- Expect(st, inner.next, LiteralTok(']'));
          Closed(st, inner.next + 1, inner.value)
        else
          Err(Unexpected(la))
      case _ => Err(Unexpected(la))
  }

  // ---------------------------------------------------------------------------------
  // Operands (`stat_val`) and statements (`stat`)

  /** `stat_val`: the operand after a keyword, up to the end of the statement. A `#` or
      a `#LO`/`#HI` prefix gives an immediate operand and nothing else does; the
      register rules hold for every operand returned. */
  function Operand(st: Stream, i: nat): (r: Result<Parsed<Addressing>, ParseError>)
    requires i <= |st.tokens|
    ensures r.Ok? ==> i <= r.value.next <= |st.tokens| && EndsStatement(st, r.value.next)
    ensures r.Ok? ==> RegistersLegal(r.value.value)
    ensures r.Ok? && r.value.value.Immediate? <==>
              r.Ok? && i < |st.tokens| &&
              (st.tokens[i].kind == LiteralTok('#') || st.tokens[i].kind.BitTok?)
    ensures r.Ok? && r.value.value == Implied ==> r.value.next == i
  {
    var la :- Peek(st, i);
    if EndOfStatement(la) then
      Ok(Parsed(Implied, i))
    else
      match la.value.kind
      case RegisterTok(_) =>
        var end :- ExpectEnd(st, i + 1);
        var a :- AccumulatorAction(la.value);
        Ok(Parsed(a, i + 1))
      case BitTok(low) =>
        var e :- Expression(st, i + 1);
        var end :- ExpectEnd(st, e.next);
        Ok(Parsed(ByteSelect(low, e.value), e.next))
      case LiteralTok(c) =>
        if c == '#' then
          var e :- Expression(st, i + 1);
          var end :- ExpectEnd(st, e.next);
          Ok(Parsed(Immediate(e.value), e.next))
        else if c == '(' then
          Parenthesized(st, i + 1)
        else
          AddressOrIndexed(st, i)
      case _ => AddressOrIndexed(st, i)
  }

  /** `# e` followed by the end of the statement is the immediate operand `e`. */
  lemma ImmediateOperand(st: Stream, i: nat, e: Expr, j: nat)
    requires i < |st.tokens| && st.tokens[i].kind == LiteralTok('#')
    requires Expression(st, i + 1) == Ok(Parsed(e, j)) && EndsStatement(st, j)
    ensures Operand(st, i) == Ok(Parsed(Immediate(e), j))
  {
  }

  /** After `(`: `(e)`, `(e,X)` or `(e),Y`. */
  function Parenthesized(st: Stream, i: nat): (r: Result<Parsed<Addressing>, ParseError>)
    requires i <= |st.tokens|
    ensures r.Ok? ==> i < r.value.next <= |st.tokens| && EndsStatement(st, r.value.next)
    ensures r.Ok? ==> RegistersLegal(r.value.value)
    ensures r.Ok? ==> r.value.value.Indirect? || r.value.value.IndexedIndirect? ||
                      r.value.value.IndirectIndexed?
  {
    var e :- Expression(st, i);
    var la :- Peek(st, e.next);
    if Is(la, LiteralTok(')')) then
      var after :- Peek(st, e.next + 1);
      if EndOfStatement(after) then
        Ok(Parsed(Indirect(e.value), e.next + 1))
      else if Is(after, LiteralTok(',')) then
        var reg :- ExpectRegister(st, e.next + 2);
        var end :- ExpectEnd(st, e.next + 3);
        var a :- IndirectIndexedAction(e.value, reg);
        Ok(Parsed(a, e.next + 3))
      else
        Err(Unexpected(after))
    else if Is(la, LiteralTok(',')) then
      var reg :- ExpectRegister(st, e.next + 1);
      var close :- Expect(st, e.next + 2, LiteralTok(')'));
      var end :- ExpectEnd(st, e.next + 3);
      var a :- IndexedIndirectAction(e.value, reg);
      Ok(Parsed(a, e.next + 3))
    else
      Err(Unexpected(la))
  }

  /** `numeric` without `#`, or `e,R`. */
  function AddressOrIndexed(st: Stream, i: nat): (r: Result<Parsed<Addressing>, ParseError>)
    requires i <= |st.tokens|
    ensures r.Ok? ==> i < r.value.next <= |st.tokens| && EndsStatement(st, r.value.next)
    ensures r.Ok? ==> RegistersLegal(r.value.value)
    ensures r.Ok? ==> r.value.value.Address? || r.value.value.Indexed?
  {
    var e :- Expression(st, i);
    var la :- Peek(st, e.next);
    if EndOfStatement(la) then
      Ok(Parsed(Address(e.value), e.next))
    else if Is(la, LiteralTok(',')) then
      var reg :- ExpectRegister(st, e.next + 1);
      var end :- ExpectEnd(st, e.next + 2);
      var a :- IndexedAction(e.value, reg);
      Ok(Parsed(a, e.next + 2))
    else
      Err(Unexpected(la))
  }

  /** One `stat`: nothing, `KEYWORD stat_val` or `LABEL KEYWORD stat_val`; the
      instruction carries the line of its first token. */
  function Statement(st: Stream, i: nat): (r: Result<Parsed<seq<Instruction>>, ParseError>)
    requires i <= |st.tokens|
    ensures r.Ok? ==> i <= r.value.next <= |st.tokens| && EndsStatement(st, r.value.next)
    ensures r.Ok? ==> |r.value.value| <= 1
    ensures r.Ok? && |r.value.value| == 1 ==>
              i < |st.tokens| && r.value.value[0].line == st.tokens[i].line &&
              RegistersLegal(r.value.value[0].addressing) &&
              (r.value.value[0].labelName.Some? <==> st.tokens[i].kind.LabelTok?)
    ensures r.Ok? && r.value.value == [] ==> r.value.next == i
  {
    var la :- Peek(st, i);
    if EndOfStatement(la) then
      Ok(Parsed([], i))
    else
      match la.value.kind
      case LabelTok(name) =>
        var kw :- ExpectKeyword(st, i + 1);
        var a :- Operand(st, i + 2);
        Ok(Parsed([Instruction(Some(name), kw, a.value, la.value.line)], a.next))
      case KeywordTok(w) =>
        var a :- Operand(st, i + 1);
        Ok(Parsed([Instruction(None, w, a.value, la.value.line)], a.next))
      case _ => Err(Unexpected(la))
  }

  /** Reads the KEYWORD token at `j` and gives its word. */
  function ExpectKeyword(st: Stream, j: nat): (r: Result<string, ParseError>)
    requires j <= |st.tokens|
    ensures r.Ok? ==> j < |st.tokens| && st.tokens[j].kind == KeywordTok(r.value)
  {
    var la :- Peek(st, j);
    if la.Some? && la.value.kind.KeywordTok? then Ok(la.value.kind.word) else Err(Unexpected(la))
  }

  /** `KEYWORD stat_val` is one instruction without a label, on the keyword's line. */
  lemma UnlabelledStatement(st: Stream, i: nat, w: string, a: Addressing, j: nat)
    requires i < |st.tokens| && st.tokens[i].kind == KeywordTok(w) && Operand(st, i + 1) == Ok(Parsed(a, j))
    ensures Statement(st, i) == Ok(Parsed([Instruction(None, w, a, st.tokens[i].line)], j))
  {
  }

  /** `stat NEWLINE stat`: the statements from index `i` to the end of the input, their
      instructions concatenated in source order; empty statements contribute nothing. */
  function Statements(st: Stream, i: nat): (r: Result<seq<Instruction>, ParseError>)
    requires i <= |st.tokens|
    ensures r.Ok? ==> forall k :: 0 <= k < |r.value| ==> RegistersLegal(r.value[k].addressing)
    ensures r.Ok? && LinesOrdered(st.tokens) && i < |st.tokens| ==>
              forall k :: 0 <= k < |r.value| ==> st.tokens[i].line <= r.value[k].line
    ensures r.Ok? && LinesOrdered(st.tokens) ==>
              forall a, b :: 0 <= a < b < |r.value| ==> r.value[a].line <= r.value[b].line
    decreases |st.tokens| - i
  {
    var s :- Statement(st, i);
    if s.next == |st.tokens| then
      Ok(s.value)
    else
      var rest :- Statements(st, s.next + 1);
      Ok(s.value + rest)
  }

  /** A statement that reaches the end of the input is the last one. */
  lemma LastStatement(st: Stream, i: nat, ins: seq<Instruction>)
    requires i <= |st.tokens| && Statement(st, i) == Ok(Parsed(ins, |st.tokens|))
    ensures Statements(st, i) == Ok(ins)
  {
  }

  /** The parse of a whole token stream. */
  function Parse(st: Stream): (r: Result<seq<Instruction>, ParseError>)
    ensures r.Ok? ==> forall k :: 0 <= k < |r.value| ==> RegistersLegal(r.value[k].addressing)
    ensures r.Ok? && LinesOrdered(st.tokens) ==>
              forall a, b :: 0 <= a < b < |r.value| ==> r.value[a].line <= r.value[b].line
  {
    Statements(st, 0)
  }

  // ---------------------------------------------------------------------------------
  // Worked examples on hand-built token streams (all on line 1)

  function T(k: TokenKind, column: int): Token {
    Token(k, 0, 1, 1, column)
  }

  function Byte(v: int): Expr { Lit(Integer(false, v)) }

  /** The tokens of `LDA #2*3+4*5`. */
  function ProductsAndSums(): Stream {
    Stream([T(KeywordTok("LDA"), 1), T(LiteralTok('#'), 5), T(IntTok(Integer(false, 2)), 6),
            T(CurTok, 7), T(IntTok(Integer(false, 3)), 8), T(LiteralTok('+'), 9),
            T(IntTok(Integer(false, 4)), 10), T(CurTok, 11), T(IntTok(Integer(false, 5)), 12)], None)
  }

  lemma FirstProductFolds(st: Stream)
    requires st == ProductsAndSums()
    ensures Term(st, 2) == Ok(Parsed(Byte(6), 5))
  {
    assert Unary(st, 4) == Ok(Parsed(Byte(3), 5));
    assert TermTail(st, 5, Byte(6)) == Ok(Parsed(Byte(6), 5));
  }

  lemma SecondProductFolds(st: Stream)
    requires st == ProductsAndSums()
    ensures Term(st, 6) == Ok(Parsed(Byte(20), 9))
  {
    assert Unary(st, 8) == Ok(Parsed(Byte(5), 9));
    assert TermTail(st, 9, Byte(20)) == Ok(Parsed(Byte(20), 9));
  }

  /** `LDA #2*3+4*5`: products bind tighter than sums, and the operand folds to the
      byte 26 before the end of the statement. */
  lemma PrecedenceExample(st: Stream)
    requires st == ProductsAndSums()
    ensures Expression(st, 2) == Ok(Parsed(Byte(26), 9)) && EndsStatement(st, 9)
  {
    FirstProductFolds(st);
    SecondProductFolds(st);
    assert ExpressionTail(st, 9, Byte(26)) == Ok(Parsed(Byte(26), 9));
  }
}
