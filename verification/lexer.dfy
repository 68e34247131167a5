/** The token rules of asm_6502/grammar.py (`t_PSEUDO` … `t_NEWLINE`, `t_BIT`, `t_CUR`,
    the ignored characters and comments, the literal characters) and the line/column
    bookkeeping used in diagnostics. The rule table is tried in the order the lexer
    generator tries it: the function rules in order of definition, then the string rules
    longest pattern first, then the single-character literals. */
module Lexer {
  import opened Integers
  import opened Outcomes
  import opened Syntax

  datatype TokenKind =
    | KeywordTok(word: string)    // KEYWORD: a mnemonic, a pseudo-op or any `.word`
    | RegisterTok(register: Register)
    | LabelTok(name: string)
    | BitTok(low: bool)           // BIT: `#LO` (low) or `#HI`
    | IntTok(number: Integer)     // HEX, BIN, DEC and CHAR
    | CurTok                      // CUR: `*`
    | NewlineTok
    | LiteralTok(ch: char)        // one of + - / # ( ) , [ ]

  /** A token with its position in the text, its length, and the 1-based line and
      column the lexer reports for it. */
  datatype Token = Token(kind: TokenKind, pos: nat, size: nat, line: int, column: int)

  const LiteralChars: set<char> := {'+', '-', '/', '#', '(', ')', ',', '[', ']'}

  predicate IsLetter(c: char) { 'a' <= c <= 'z' || 'A' <= c <= 'Z' || c == '_' }
  predicate IsDigit(c: char) { '0' <= c <= '9' }
  predicate IsHexDigit(c: char) { IsDigit(c) || 'a' <= c <= 'f' || 'A' <= c <= 'F' }
  predicate IsBinDigit(c: char) { c == '0' || c == '1' }
  predicate IsBreak(c: char) { c == '\n' || c == '\r' }

  /** Character classes of the rules' repeated parts. */
  datatype CharClass = IdentChars | HexChars | BinChars | DecChars | BreakChars | NotNewline

  predicate InClass(c: char, cls: CharClass) {
    match cls
    case IdentChars => IsLetter(c) || IsDigit(c)
    case HexChars => IsHexDigit(c)
    case BinChars => IsBinDigit(c)
    case DecChars => IsDigit(c)
    case BreakChars => IsBreak(c)
    case NotNewline => c != '\n'
  }

  /** The end of the longest run of `cls` characters starting at `i` (a greedy `+`/`*`). */
  function SpanEnd(s: string, i: nat, cls: CharClass): (j: nat)
    requires i <= |s|
    ensures i <= j <= |s|
    ensures forall k :: i <= k < j ==> InClass(s[k], cls)
    ensures j == |s| || !InClass(s[j], cls)
    decreases |s| - i
  {
    if i < |s| && InClass(s[i], cls) then SpanEnd(s, i + 1, cls) else i
  }

  function Pow(b: nat, n: nat): (p: nat)
    ensures p >= 1 || b == 0
  {
    if n == 0 then 1 else b * Pow(b, n - 1)
  }

  function DigitValue(c: char): nat {
    if '0' <= c <= '9' then c as nat - '0' as nat
    else if 'a' <= c <= 'f' then c as nat - 'a' as nat + 10
    else if 'A' <= c <= 'F' then c as nat - 'A' as nat + 10
    else 0
  }

  /** `int(digits, base)`. */
  function NumberValue(digits: string, base: nat): nat {
    if |digits| == 0 then 0
    else NumberValue(digits[..|digits| - 1], base) * base + DigitValue(digits[|digits| - 1])
  }

  /** A numeral never exceeds what its digit count allows. */
  lemma {:induction false} NumberBound(digits: string, base: nat)
    requires base >= 2
    requires forall k :: 0 <= k < |digits| ==> DigitValue(digits[k]) < base
    ensures NumberValue(digits, base) < Pow(base, |digits|)
  {
    if |digits| > 0 {
      var init := digits[..|digits| - 1];
      NumberBound(init, base);
      var v := NumberValue(init, base);
      var p := Pow(base, |init|);
      var d := DigitValue(digits[|digits| - 1]);
      assert d < base;
      ShiftDigit(v, p, base, d);
      assert Pow(base, |digits|) == base * p;
    }
  }

  /** Appending a digit below `b` to a value below `p` stays below `p * b`. */
  lemma ShiftDigit(v: nat, p: nat, b: nat, d: nat)
    requires v < p && d < b
    ensures v * b + d < b * p
  {
    assert v * b <= (p - 1) * b;
  }

  /** `t_HEX`, given the digits after `$`: a word exactly when there are more than two
      digits, so a byte-width hex literal always fits a byte. */
  function HexLiteral(digits: string): (n: Integer)
    requires forall k :: 0 <= k < |digits| ==> IsHexDigit(digits[k])
    ensures n.isWord <==> |digits| > 2
    ensures 0 <= n.value < Pow(16, |digits|)
    ensures !n.isWord ==> n.value <= ByteMax
  {
    NumberBound(digits, 16);
    Integer(|digits| > 2, NumberValue(digits, 16))
  }

  /** `t_BIN`, given the digits after `%`: a word exactly when there are more than eight
      digits, so a byte-width binary literal always fits a byte. */
  function BinLiteral(digits: string): (n: Integer)
    requires forall k :: 0 <= k < |digits| ==> IsBinDigit(digits[k])
    ensures n.isWord <==> |digits| > 8
    ensures 0 <= n.value < Pow(2, |digits|)
    ensures !n.isWord ==> n.value <= ByteMax
  {
    assert forall k :: 0 <= k < |digits| ==> DigitValue(digits[k]) < 2 by {
      forall k | 0 <= k < |digits| ensures DigitValue(digits[k]) < 2 {
        assert IsBinDigit(digits[k]);
      }
    }
    NumberBound(digits, 2);
    assert |digits| <= 8 ==> Pow(2, |digits|) <= Pow(2, 8) by {
      if |digits| <= 8 {
        PowMonotone(2, |digits|, 8);
      }
    }
    Integer(|digits| > 8, NumberValue(digits, 2))
  }

  lemma {:induction false} PowMonotone(b: nat, m: nat, n: nat)
    requires b >= 1 && m <= n
    ensures Pow(b, m) <= Pow(b, n)
  {
    if m < n {
      PowMonotone(b, m, n - 1);
    }
  }

  /** `t_DEC`: the width follows the value, not the digit count. */
  function DecLiteral(digits: string): (n: Integer)
    requires forall k :: 0 <= k < |digits| ==> IsDigit(digits[k])
    ensures n.value >= 0 && (n.isWord <==> n.value > ByteMax)
  {
    var v := NumberValue(digits, 10);
    Integer(v > ByteMax, v)
  }

  /** `t_CHAR`: always byte-width, with the character's code (which for a character
      beyond U+00FF is larger than a byte). */
  function CharLiteral(c: char): (n: Integer)
    ensures !n.isWord && n.value == c as int
  {
    Integer(false, c as int)
  }

  function RegisterName(r: Register): string {
    match r
    case A => "A"
    case X => "X"
    case Y => "Y"
  }

  /** The text a word-like token carries. */
  function WordOf(k: TokenKind): string {
    match k
    case KeywordTok(w) => w
    case RegisterTok(r) => RegisterName(r)
    case LabelTok(n) => n
    case _ => ""
  }

  /** `t_LABEL`'s classification of an identifier: REGISTER for A, X and Y, KEYWORD for
      the mnemonics and pseudo-ops, LABEL otherwise; the token keeps the word's text. */
  function ClassifyWord(w: string): (k: TokenKind)
    ensures k.RegisterTok? <==> w in {"A", "X", "Y"}
    ensures k.KeywordTok? <==> w !in {"A", "X", "Y"} && IsKeyword(w)
    ensures k.RegisterTok? || k.KeywordTok? || k.LabelTok?
    ensures WordOf(k) == w
  {
    if w == "A" then RegisterTok(A)
    else if w == "X" then RegisterTok(X)
    else if w == "Y" then RegisterTok(Y)
    else if IsKeyword(w) then KeywordTok(w)
    else LabelTok(w)
  }

  /** What the rule table does at one position: produce a token, discard a comment, or
      find no rule (an illegal character). */
  datatype Lexeme = Produce(kind: TokenKind, size: nat) | Discard(size: nat) | Illegal

  /** Applies the rule table at `i`: whatever it matches is non-empty and inside the
      text. */
  function Scan(s: string, i: nat): (x: Lexeme)
    requires i < |s|
    ensures !x.Illegal? ==> 0 < x.size && i + x.size <= |s|
  {
    var c := s[i];
    if c == '.' && i + 1 < |s| && IsLetter(s[i + 1]) then
      // t_PSEUDO
      var j := SpanEnd(s, i + 2, IdentChars);
      Produce(KeywordTok(s[i..j]), j - i)
    else if IsLetter(c) then
      // t_LABEL
      var j := SpanEnd(s, i + 1, IdentChars);
      Produce(ClassifyWord(s[i..j]), j - i)
    else if c == '$' && i + 1 < |s| && IsHexDigit(s[i + 1]) then
      var j := SpanEnd(s, i + 1, HexChars);
      Produce(IntTok(HexLiteral(s[i + 1..j])), j - i)
    else if c == '%' && i + 1 < |s| && IsBinDigit(s[i + 1]) then
      var j := SpanEnd(s, i + 1, BinChars);
      Produce(IntTok(BinLiteral(s[i + 1..j])), j - i)
    else if IsDigit(c) then
      var j := SpanEnd(s, i, DecChars);
      Produce(IntTok(DecLiteral(s[i..j])), j - i)
    else if c == '\'' && i + 2 < |s| && s[i + 1] != '\'' && !IsBreak(s[i + 1]) && s[i + 2] == '\'' then
      Produce(IntTok(CharLiteral(s[i + 1])), 3)
    else if IsBreak(c) then
      var j := SpanEnd(s, i, BreakChars);
      Produce(NewlineTok, j - i)
    else if c == '#' && i + 2 < |s| && s[i + 1] == 'L' && s[i + 2] == 'O' then
      Produce(BitTok(true), 3)
    else if c == '#' && i + 2 < |s| && s[i + 1] == 'H' && s[i + 2] == 'I' then
      Produce(BitTok(false), 3)
    else if c == ';' then
      // t_ignore_COMMENT: `.` stops at `\n` only
      var j := SpanEnd(s, i + 1, NotNewline);
      Discard(j - i)
    else if c == '*' then
      Produce(CurTok, 1)
    else if c in LiteralChars then
      Produce(LiteralTok(c), 1)
    else
      Illegal
  }

  /** Only a NEWLINE token can contain a `\n`, and it holds nothing but line breaks. */
  lemma ScanBreaks(s: string, i: nat)
    requires i < |s|
    ensures var x := Scan(s, i);
      (x.Produce? && !x.kind.NewlineTok?) || x.Discard? ==>
        forall k :: i <= k < i + x.size ==> s[k] != '\n'
    ensures var x := Scan(s, i);
      x.Produce? && x.kind.NewlineTok? ==> forall k :: i <= k < i + x.size ==> IsBreak(s[k])
  {
  }

  /** The number of `\n` characters in a text (a lone `\r` does not count). */
  function NewlinesIn(t: string): nat {
    if |t| == 0 then 0 else NewlinesIn(t[..|t| - 1]) + (if t[|t| - 1] == '\n' then 1 else 0)
  }

  /** The line the lexer is on at position `pos`: one more than the `\n`s before it. */
  function LineAt(s: string, pos: nat): int
    requires pos <= |s|
  {
    if pos == 0 then 1 else LineAt(s, pos - 1) + (if s[pos - 1] == '\n' then 1 else 0)
  }

  lemma {:induction false} NoNewlines(t: string)
    requires forall k :: 0 <= k < |t| ==> t[k] != '\n'
    ensures NewlinesIn(t) == 0
  {
    if |t| > 0 {
      NoNewlines(t[..|t| - 1]);
    }
  }

  /** Advancing over a piece of text raises the line by the `\n`s it contains. */
  lemma {:induction false} LineAtAdvance(s: string, i: nat, j: nat)
    requires i <= j <= |s|
    ensures LineAt(s, j) == LineAt(s, i) + NewlinesIn(s[i..j])
    decreases j - i
  {
    if i < j {
      LineAtAdvance(s, i, j - 1);
      assert s[i..j][..j - i - 1] == s[i..j - 1];
    }
  }

  /** `get_column`: 1 plus the number of characters between the last line break before
      `pos` and `pos`. */
  function ColumnOf(s: string, pos: nat): (c: nat)
    requires pos <= |s|
    ensures 1 <= c <= pos + 1
    ensures forall k :: pos - c < k < pos ==> !IsBreak(s[k])
    ensures c == pos + 1 || IsBreak(s[pos - c])
  {
    if pos == 0 || IsBreak(s[pos - 1]) then 1 else ColumnOf(s, pos - 1) + 1
  }

  /** The loop of `get_column`, counting back to the previous line break. */
  method GetColumn(data: string, pos: nat) returns (column: nat)
    requires pos <= |data|
    ensures column == ColumnOf(data, pos)
  {
    column := 1;
    while pos - column >= 0
      invariant 1 <= column <= pos + 1
      invariant forall k :: pos - column < k < pos ==> !IsBreak(data[k])
    {
      if IsBreak(data[pos - column]) {
        break;
      }
      column := column + 1;
    }
  }

  /** What the lexer delivers: the tokens it produced, in order, and how it stopped,
      at the end of the text (`None`) or at an illegal character. The parser pulls
      tokens one at a time, so it meets that error only if it reads that far. */
  datatype Stream = Stream(tokens: seq<Token>, stop: Option<ParseError>)

  /** The token stream of `s` from position `i`, up to the end of the text. */
  function Lex(s: string, i: nat): Stream
    requires i <= |s|
    decreases |s| - i, 1
  {
    if i == |s| then Stream([], None) else LexAt(s, i)
  }

  /** The stream from a position inside the text: blanks and tabs are skipped, comments
      discarded, and an unmatched character is a lexical error at its line and column. */
  function LexAt(s: string, i: nat): Stream
    requires i < |s|
    decreases |s| - i, 0
  {
    if s[i] == ' ' || s[i] == '\t' then Lex(s, i + 1)
    else
      match Scan(s, i)
      case Illegal => Stream([], Some(IllegalCharacter(s[i], LineAt(s, i), ColumnOf(s, i))))
      case Discard(n) => Lex(s, i + n)
      case Produce(k, n) => Prepend([Token(k, i, n, LineAt(s, i), ColumnOf(s, i))], Lex(s, i + n))
  }

  function Prepend(done: seq<Token>, rest: Stream): Stream {
    Stream(done + rest.tokens, rest.stop)
  }

  lemma PrependTwice(a: seq<Token>, b: seq<Token>, rest: Stream)
    ensures Prepend(a, Prepend(b, rest)) == Prepend(a + b, rest)
  {
    assert a + (b + rest.tokens) == (a + b) + rest.tokens;
  }

  /** The steps of the token stream, case by case. */
  lemma LexBlank(s: string, i: nat)
    requires i < |s| && (s[i] == ' ' || s[i] == '\t')
    ensures Lex(s, i) == Lex(s, i + 1)
    ensures LineAt(s, i + 1) == LineAt(s, i)
  {
    LineStep(s, i);
  }

  lemma LexIllegal(s: string, i: nat)
    requires i < |s| && s[i] != ' ' && s[i] != '\t' && Scan(s, i).Illegal?
    ensures Lex(s, i) == Stream([], Some(IllegalCharacter(s[i], LineAt(s, i), ColumnOf(s, i))))
  {
  }

  lemma LexDiscard(s: string, i: nat)
    requires i < |s| && s[i] != ' ' && s[i] != '\t' && Scan(s, i).Discard?
    ensures Lex(s, i) == Lex(s, i + Scan(s, i).size)
    ensures LineAt(s, i + Scan(s, i).size) == LineAt(s, i)
  {
    LineStep(s, i);
  }

  lemma LexProduce(s: string, i: nat, t: Token)
    requires i < |s| && s[i] != ' ' && s[i] != '\t' && Scan(s, i).Produce?
    requires t == Token(Scan(s, i).kind, i, Scan(s, i).size, LineAt(s, i), ColumnOf(s, i))
    ensures Lex(s, i) == Prepend([t], Lex(s, i + t.size))
  {
  }

  /** The line after a recognised token: unchanged, except past a NEWLINE token. */
  lemma ProduceLine(s: string, i: nat)
    requires i < |s| && s[i] != ' ' && s[i] != '\t' && Scan(s, i).Produce?
    ensures var x := Scan(s, i);
            LineAt(s, i + x.size) ==
              LineAt(s, i) + (if x.kind.NewlineTok? then NewlinesIn(s[i..i + x.size]) else 0)
  {
    LineStep(s, i);
  }

  /** How the line moves over one step: blanks, comments and tokens other than NEWLINE
      never change it, and a NEWLINE token raises it by its `\n`s. */
  lemma LineStep(s: string, i: nat)
    requires i < |s|
    ensures s[i] == ' ' || s[i] == '\t' ==> LineAt(s, i + 1) == LineAt(s, i)
    ensures s[i] != ' ' && s[i] != '\t' && !Scan(s, i).Illegal? ==>
              LineAt(s, i + Scan(s, i).size) ==
                LineAt(s, i) + (if Scan(s, i).Produce? && Scan(s, i).kind.NewlineTok?
                                then NewlinesIn(s[i..i + Scan(s, i).size]) else 0)
  {
    if s[i] == ' ' || s[i] == '\t' {
      LineAtAdvance(s, i, i + 1);
      NoNewlines(s[i..i + 1]);
    } else if !Scan(s, i).Illegal? {
      var n := Scan(s, i).size;
      LineAtAdvance(s, i, i + n);
      ScanBreaks(s, i);
      if !(Scan(s, i).Produce? && Scan(s, i).kind.NewlineTok?) {
        NoNewlines(s[i..i + n]);
      }
    }
  }

  /** The tokens of the stream lie in the text, in order and without overlap, and each
      carries the line and column of its own position. */
  lemma {:induction false} LexPositions(s: string, i: nat)
    requires i <= |s|
    ensures Placed(s, i, Lex(s, i).tokens)
    decreases |s| - i
  {
    if i < |s| {
      if s[i] == ' ' || s[i] == '\t' {
        LexBlank(s, i);
        LexPositions(s, i + 1);
        PlacedFrom(s, i, i + 1, Lex(s, i).tokens);
      } else {
        var x := Scan(s, i);
        if x.Discard? {
          LexDiscard(s, i);
          LexPositions(s, i + x.size);
          PlacedFrom(s, i, i + x.size, Lex(s, i).tokens);
        } else if x.Produce? {
          var t := Token(x.kind, i, x.size, LineAt(s, i), ColumnOf(s, i));
          LexProduce(s, i, t);
          LexPositions(s, i + x.size);
          PlacedCons(s, i, t, Lex(s, i + x.size).tokens);
        } else {
          LexIllegal(s, i);
        }
      }
    }
  }

  /** Tokens placed in `s` at or after `i`: each inside the text and non-empty, carrying
      the line and column of its position, and each ending before the next begins. */
  ghost predicate Placed(s: string, i: nat, ts: seq<Token>) {
    (forall t :: t in ts ==>
       i <= t.pos && t.pos + t.size <= |s| && 0 < t.size &&
       t.line == LineAt(s, t.pos) && t.column == ColumnOf(s, t.pos)) &&
    (forall j :: 0 <= j < |ts| - 1 ==> ts[j].pos + ts[j].size <= ts[j + 1].pos)
  }

  lemma PlacedFrom(s: string, i: nat, j: nat, ts: seq<Token>)
    requires i <= j && Placed(s, j, ts)
    ensures Placed(s, i, ts)
  {
  }

  lemma PlacedCons(s: string, i: nat, t: Token, rest: seq<Token>)
    requires t.pos == i && 0 < t.size && i + t.size <= |s|
    requires t.line == LineAt(s, i) && t.column == ColumnOf(s, i)
    requires Placed(s, i + t.size, rest)
    ensures Placed(s, i, [t] + rest)
  {
    var ts := [t] + rest;
    assert forall j :: 1 <= j < |ts| ==> ts[j] == rest[j - 1];
    assert |rest| > 0 ==> rest[0] in rest;
  }

  /** One request for the next token: blanks, tabs and comments are passed over, an
      unmatched character raises the lexical error at its line and column (`t_error`),
      and a NEWLINE token raises the line counter by its `\n`s (`t_NEWLINE`). `None`
      is the end of the text. */
  method NextToken(src: string, start: nat, startLine: int)
    returns (r: Result<Option<Token>, ParseError>, pos: nat, lineno: int)
    requires start <= |src| && startLine == LineAt(src, start)
    ensures start <= pos <= |src| && lineno == LineAt(src, pos)
    ensures r.Err? ==> Lex(src, start) == Stream([], Some(r.error))
    ensures r.Ok? && r.value.None? ==> Lex(src, start) == Stream([], None)
    ensures r.Ok? && r.value.Some? ==>
              start < pos && Lex(src, start) == Prepend([r.value.value], Lex(src, pos))
  {
    pos, lineno := start, startLine;
    while pos < |src|
      invariant start <= pos <= |src| && lineno == LineAt(src, pos)
      invariant Lex(src, start) == Lex(src, pos)
      decreases |src| - pos
    {
      var c := src[pos];
      if c == ' ' || c == '\t' {
        LexBlank(src, pos);
        pos := pos + 1;
        continue;
      }
      var lexeme := Scan(src, pos);
      if lexeme.Illegal? {
        var column := GetColumn(src, pos);
        LexIllegal(src, pos);
        return Err(IllegalCharacter(c, lineno, column)), pos, lineno;
      }
      if lexeme.Discard? {
        LexDiscard(src, pos);
        pos := pos + lexeme.size;
        continue;
      }
      var tok, next, nextLine := Produced(src, pos, lineno);
      return Ok(Some(tok)), next, nextLine;
    }
    r := Ok(None);
  }

  /** A token a rule recognised at `pos`: it carries its position, line and column, and
      the line counter moves past it (`t_NEWLINE` counts its `\n`s). */
  method Produced(src: string, pos: nat, lineno: int) returns (tok: Token, next: nat, nextLine: int)
    requires pos < |src| && src[pos] != ' ' && src[pos] != '\t' && Scan(src, pos).Produce?
    requires lineno == LineAt(src, pos)
    ensures tok.pos == pos < next == pos + tok.size <= |src| && nextLine == LineAt(src, next)
    ensures Lex(src, pos) == Prepend([tok], Lex(src, next))
  {
    var lexeme := Scan(src, pos);
    var column := GetColumn(src, pos);
    tok := Token(lexeme.kind, pos, lexeme.size, lineno, column);
    LexProduce(src, pos, tok);
    ProduceLine(src, pos);
    next, nextLine := pos + tok.size, lineno;
    if lexeme.kind.NewlineTok? {
      nextLine := lineno + NewlinesIn(src[pos..next]);
    }
  }

  /** The token stream as the parser pulls it, one `NextToken` at a time from line 1. */
  method Tokenize(src: string) returns (r: Stream)
    ensures r == Lex(src, 0)
  {
    var pos, lineno := 0, 1;
    var toks: seq<Token> := [];
    assert [] + Lex(src, 0).tokens == Lex(src, 0).tokens;
    while true
      invariant pos <= |src| && lineno == LineAt(src, pos)
      invariant Lex(src, 0) == Prepend(toks, Lex(src, pos))
      decreases |src| - pos
    {
      var next, p, l := NextToken(src, pos, lineno);
      if next.Err? {
        assert toks + [] == toks;
        return Stream(toks, Some(next.error));
      }
      if next.value.None? {
        assert toks + [] == toks;
        return Stream(toks, None);
      }
      PrependTwice(toks, [next.value.value], Lex(src, p));
      toks := toks + [next.value.value];
      pos, lineno := p, l;
    }
  }

  /** Token lines never decrease along a token sequence. */
  predicate LinesOrdered(ts: seq<Token>) {
    forall a, b :: 0 <= a < b < |ts| ==> ts[a].line <= ts[b].line
  }

  lemma {:induction false} LineAtMonotone(s: string, p: nat, q: nat)
    requires p <= q <= |s|
    ensures LineAt(s, p) <= LineAt(s, q)
    decreases q - p
  {
    if p < q {
      LineAtMonotone(s, p, q - 1);
    }
  }

  lemma {:induction false} PlacedOrdered(s: string, i: nat, ts: seq<Token>, a: nat, b: nat)
    requires Placed(s, i, ts) && a < b < |ts|
    ensures ts[a].pos < ts[b].pos
    decreases b - a
  {
    assert ts[b - 1] in ts;
    if a < b - 1 {
      PlacedOrdered(s, i, ts, a, b - 1);
    }
  }

  /** The lines the lexer reports never decrease from one token to the next. */
  lemma LexLinesOrdered(s: string)
    ensures LinesOrdered(Lex(s, 0).tokens)
  {
    var ts := Lex(s, 0).tokens;
    LexPositions(s, 0);
    forall a, b | 0 <= a < b < |ts|
      ensures ts[a].line <= ts[b].line
    {
      PlacedOrdered(s, 0, ts, a, b);
      assert ts[a] in ts && ts[b] in ts;
      LineAtMonotone(s, ts[a].pos, ts[b].pos);
    }
  }

  /** The illegal-character test vector: in `ORG  $@0080` the `$` (position 5) starts no
      token and is reported at line 1, column 6. */
  lemma IllegalCharacterExample()
    ensures Scan("ORG  $@0080", 5) == Illegal
    ensures LineAt("ORG  $@0080", 5) == 1 && ColumnOf("ORG  $@0080", 5) == 6
  {
  }

  /** `$0080` is a word although its value fits a byte; `$02` is a byte. */
  lemma HexWidthExample()
    ensures HexLiteral("0080") == Integer(true, 128)
    ensures HexLiteral("02") == Integer(false, 2)
  {
    assert NumberValue("0080", 16) == 128 by {
      assert "0080"[..3] == "008";
      assert "008"[..2] == "00";
      assert "00"[..1] == "0";
      assert "0"[..0] == "";
    }
    assert NumberValue("02", 16) == 2 by {
      assert "02"[..1] == "0";
      assert "0"[..0] == "";
    }
  }
}
