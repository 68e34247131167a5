# A verified model of the MOS 6502 restricted assembler

This project models the core of `asm_6502`, a two-pass assembler for a restricted 6502
assembly language, in Dafny, and proves properties of the model.

- **Lexer** (`lexer.dfy`). It follows the token rules of `asm_6502/grammar.py`: keywords,
  registers and labels, `#LO`/`#HI`, hexadecimal, binary, decimal and character literals,
  `*`, newlines, comments, ignored blanks, single-character literals and the
  illegal-character error. It also models the line and column bookkeeping of
  `get_column`. `Lex` is the specification. `Tokenize` is the loop that produces the
  same stream, one token at a time.
- **Parser** (`parser.dfy`). It is a recursive-descent parser that follows the precedence
  table of the grammar. The semantic actions (`p_stat_*`, `p_numeric`,
  `p_arithmetic_*`) fold literal arithmetic with the width-tagged `Integer` operators
  (`integers.dfy`) and check the register rules of each addressing mode.
- **Assembler** (`assembler.dfy`). The two passes of `Assembler.assemble` are stated as
  pure functions:
  - `PlanStep`/`Plan` is pass 1: label binding, the zero-page guess of
    `_addressing_guard`, the `pre_*` sizes (with the LDA size corrected, see "## Findings"), the offsets, the first executable offset
    and the memory ceiling.
  - `Emit`/`Generate` is pass 2: the region handling of `_assemble_guard` and the bytes
    of `gen_*`.
  - `Prune` and `WithEntry` are the final pruning and the entry jump.

  A region list is *well formed* (`Separated`) when only its last region may be empty
  and no region starts where the one before it ends.

  The `Assembler` class keeps the source's fields and updates them in place. Its methods
  (`Reset`, `AddressingGuard`, `Pre`, `Prepare`, `AssembleGuard`, `Gen`, `Assemble`, …)
  are proved to leave exactly the state those functions describe.
- **Resolution** (`resolution.dfy`). `_resolve_address_recur` is modelled as evaluation
  of an expression tree against a label table and the current offset.
- **Scenarios** (`scenarios.dfy`). Whole programs assembled end to end, for example a
  forward jump over a later label.

Only the ORG, JMP and LDA handlers exist in the modelled core. Any other keyword reaches
no handler and is an error.

Python's exceptions become `Err` values:
- `ParseError` and `AssembleError`;
- the `ZeroDivisionError` of a literal `/ 0` in the parser;
- the `ZeroDivisionError` of a `/` in an operand that is resolved in the assembler;
- the `AttributeError` of a keyword without a handler.

Integers are unbounded, as in Python. Byte extraction is written out explicitly
(`& 0xFF`, `>> 8 & 0xFF`), and `//` is floor division for either sign.

Three behaviours of the code are kept as they are:
- The zero-page decision in pass 1 looks only at the value of the operand. A label not
  yet bound counts as "does not fit".
- The entry jump is always written at 0xFFFC. The `program_entry` setting is stored but
  never used.
- The sum and the product of two bytes become a word when the value exceeds 0xFF. The
  test is not on the magnitude.

## Model

| member | source | states |
|---|---|---|
| Integers.LowOf | asm_6502/assemble.py:153-155 | the low byte is in 0..0xFF and differs from the value by a multiple of 0x100 |
| Integers.HighOf | asm_6502/assemble.py:157-159 | the high byte is in 0..0xFF |
| Integers.FloorDivide | asm_6502/grammar.py:48-52 | Python's `//`: the quotient is the floor for a positive or a negative divisor |
| Integers.HighLowRecompose | asm_6502/assemble.py:153-159 | high byte * 0x100 + low byte is the value modulo 0x10000, and is the value itself for a 16-bit address |
| Integers.Add | asm_6502/grammar.py:28-33 | exact sum; a word when an operand is a word or the sum exceeds 0xFF, and a byte only when it is at most 0xFF |
| Integers.Sub | asm_6502/grammar.py:35-39 | exact difference; a word exactly when an operand is a word (no widening on overflow) |
| Integers.Mul | asm_6502/grammar.py:41-46 | exact product, widened like the sum |
| Integers.Div | asm_6502/grammar.py:48-52 | floored quotient for a nonzero divisor of either sign; a word exactly when an operand is a word |
| Integers.Neg | asm_6502/grammar.py:54-55 | negated value, width kept |
| Integers.NegInvolutive | asm_6502/grammar.py:54-55 | negating twice gives the original Integer back |
| Integers.LowByte | asm_6502/grammar.py:57-58 | a byte-width value in 0..0xFF congruent to the input modulo 0x100 |
| Integers.HighByte | asm_6502/grammar.py:60-61 | a byte-width value in 0..0xFF that, with the low byte, rebuilds any 16-bit value |
| Integers.AddMulCommute | asm_6502/grammar.py:28-46 | sum and product do not depend on operand order, in value or width |
| Integers.LowHighExample | asm_6502/grammar.py:57-61 | `$00AB + $CD00` is the word 0xCDAB, whose low and high bytes are 0xAB and 0xCD |
| Syntax.KeywordExamples | asm_6502/grammar.py:80-89 | LDA, ORG and .ORG are keywords; LDB, lda and ORG1 are not |
| Resolution.Resolve | asm_6502/assemble.py:124-146 | a reported missing label is one the expression mentions and the table lacks; with every mentioned label bound, no label is reported missing |
| Resolution.ResolveStable | asm_6502/assemble.py:124-146 | a value known with some labels bound stays the same when more labels are bound |
| Resolution.ResolveLocal | asm_6502/assemble.py:129-132 | resolution depends only on the bindings of the labels the expression mentions |
| Lexer.SpanEnd | asm_6502/grammar.py:136-197 | the longest run of characters of a class: every character inside matches, the one after does not |
| Lexer.NumberBound | asm_6502/grammar.py:154-169 | a numeral of n digits in base b is below b^n |
| Lexer.HexLiteral | asm_6502/grammar.py:154-160 | a word exactly when more than two hex digits are written; the value is below 16^digits; a byte value is at most 0xFF |
| Lexer.BinLiteral | asm_6502/grammar.py:163-169 | a word exactly when more than eight binary digits are written; a byte value is at most 0xFF |
| Lexer.DecLiteral | asm_6502/grammar.py:172-179 | non-negative; a word exactly when the value exceeds 0xFF |
| Lexer.CharLiteral | asm_6502/grammar.py:182-185 | a byte whose value is the character's code |
| Lexer.ClassifyWord | asm_6502/grammar.py:142-148 | A, X and Y are registers exactly; other keywords and pseudo-ops are keywords exactly; everything else is a label; the text is kept |
| Lexer.Scan | asm_6502/grammar.py:133-201 | a recognised token or skipped span is non-empty and lies inside the input |
| Lexer.ScanBreaks | asm_6502/grammar.py:190-197 | no other token and no comment contains a newline, and a NEWLINE token holds only line breaks |
| Lexer.NoNewlines | asm_6502/grammar.py:194-197 | text without a newline advances the line count by zero |
| Lexer.LineAtAdvance | asm_6502/grammar.py:194-197 | the line number at a later position is the earlier one plus the newlines in between |
| Lexer.ColumnOf | asm_6502/grammar.py:105-115 | the column is 1 + the distance back to the last line break (or the start of the text) |
| Lexer.GetColumn | asm_6502/grammar.py:105-115 | the backward scan computes exactly `ColumnOf` |
| Lexer.LexBlank | asm_6502/grammar.py:190 | a blank or tab is skipped without changing the line |
| Lexer.LexIllegal | asm_6502/grammar.py:200-201 | a character no rule matches stops the stream with an illegal-character error at its line and column |
| Lexer.LexDiscard | asm_6502/grammar.py:191 | a comment is skipped without changing the line |
| Lexer.LexProduce | asm_6502/grammar.py:136-197 | a recognised token is emitted with its position, line and column, and the lexer resumes after it |
| Lexer.ProduceLine | asm_6502/grammar.py:194-197 | past a recognised token the line is unchanged, except past a NEWLINE token, which raises it by its newlines |
| Lexer.LineStep | asm_6502/grammar.py:190-197 | only a NEWLINE token advances the line counter, by the number of newlines it contains |
| Lexer.LexPositions | asm_6502/grammar.py:119-201 | every emitted token lies in the text, at its reported line and column, in increasing position |
| Lexer.NextToken | asm_6502/grammar.py:136-201 | one lexer step: an error, the end, or a token followed by the stream lexed from the new position |
| Lexer.Produced | asm_6502/grammar.py:136-197 | a recognised token is returned at its position; the lexer resumes after it, with the line counter at the line there |
| Lexer.Tokenize | asm_6502/grammar.py:119-201 | the token loop produces exactly the stream `Lex` specifies |
| Lexer.LineAtMonotone | asm_6502/grammar.py:194-197 | line numbers never decrease along the text |
| Lexer.PlacedOrdered | asm_6502/grammar.py:119-201 | placed tokens appear at strictly increasing positions |
| Lexer.LexLinesOrdered | asm_6502/grammar.py:194-197 | the lexed tokens carry non-decreasing line numbers |
| Lexer.IllegalCharacterExample | asm_6502/grammar.py:200-201 | in `ORG  $@0080` the `$` is illegal at line 1, column 6 |
| Lexer.HexWidthExample | asm_6502/grammar.py:154-160 | `$0080` is the word 0x80 and `$02` the byte 2 |
| Parser.Binary | asm_6502/grammar.py:352-369 | two literals fold (the only error is a literal division by zero); otherwise a lazy node with the operands in order |
| Parser.Negate | asm_6502/grammar.py:319-325 | a literal is negated with its width kept; anything else becomes 0 - e |
| Parser.ByteSelect | asm_6502/grammar.py:294-306 | `#LO`/`#HI` give an immediate operand: a byte literal in 0..0xFF, or a lazy low/high node |
| Parser.AccumulatorAction | asm_6502/grammar.py:236-243 | a lone register is accepted exactly when it is A; otherwise the not-an-address error at that token |
| Parser.IndexedAction | asm_6502/grammar.py:267-273 | indexing is accepted exactly with X or Y; otherwise the index error at the register |
| Parser.IndexedIndirectAction | asm_6502/grammar.py:276-282 | `(e,r)` is accepted exactly with X |
| Parser.IndirectIndexedAction | asm_6502/grammar.py:285-291 | `(e),r` is accepted exactly with Y |
| Parser.BinarySound | asm_6502/grammar.py:352-369 | folding never changes the value an expression resolves to; a failed fold is a division by zero |
| Parser.NegateSound | asm_6502/grammar.py:319-325 | the negation node resolves like 0 - e |
| Parser.ByteSelectSound | asm_6502/grammar.py:294-306 | the folded `#LO`/`#HI` resolves like the lazy low/high node |
| Parser.FoldedClosed | asm_6502/grammar.py:352-369 | a folded expression without labels or `*` is a single literal |
| Parser.Peek | asm_6502/grammar.py:382-386 | a token is read exactly when one remains; the error comes only at the lexical stop |
| Parser.Expect | asm_6502/grammar.py:382-386 | on success the current token has the expected kind |
| Parser.ExpectRegister | asm_6502/grammar.py:236-291 | on success the current token is a register |
| Parser.ExpectEnd | asm_6502/grammar.py:224-233 | succeeds exactly at the end of a statement (newline or end of input) |
| Parser.Closed | asm_6502/grammar.py:346-349 | on success the expression is returned unchanged, ending at the given token |
| Parser.Expression | asm_6502/grammar.py:352-369 | a parsed expression consumes at least one token and is fully folded |
| Parser.ExpressionTail | asm_6502/grammar.py:352-369 | `+`/`-` chains group to the left and stay folded |
| Parser.Term | asm_6502/grammar.py:352-369 | `*`/`/` chains consume at least one token and stay folded |
| Parser.TermTail | asm_6502/grammar.py:352-369 | `*`/`/` chains group to the left and stay folded |
| Parser.Unary | asm_6502/grammar.py:319-325 | unary minus consumes input and yields a folded expression |
| Parser.Primary | asm_6502/grammar.py:328-349 | an integer, label, `*` or bracketed expression consumes input and is folded |
| Parser.Operand | asm_6502/grammar.py:246-316 | an operand ends its statement, obeys the register rules, is immediate exactly when it starts with `#` or `#LO`/`#HI`, and is implied only when empty |
| Parser.ImmediateOperand | asm_6502/grammar.py:309-316 | `#` followed by an expression that ends the statement is that immediate operand |
| Parser.Parenthesized | asm_6502/grammar.py:261-291 | an operand starting with `(` is indirect, indexed-indirect or indirect-indexed, and obeys the register rules |
| Parser.AddressOrIndexed | asm_6502/grammar.py:246-273 | an operand starting with an expression is an address or an indexed operand |
| Parser.Statement | asm_6502/grammar.py:212-233 | a statement is empty or one instruction with the line of its first token, legal registers, and a label exactly when it starts with one |
| Parser.ExpectKeyword | asm_6502/grammar.py:212-221 | on success the current token is that keyword |
| Parser.UnlabelledStatement | asm_6502/grammar.py:218-221 | a keyword and its operand form one unlabelled instruction on the keyword's line |
| Parser.Statements | asm_6502/grammar.py:224-227 | all instructions have legal registers and, for ordered input, non-decreasing lines not before the first token |
| Parser.LastStatement | asm_6502/grammar.py:224-233 | a statement that reaches the end of the input is the whole remaining program |
| Parser.Parse | asm_6502/grammar.py:212-233 | a parsed program obeys the register rules, and its lines do not decrease |
| Parser.FirstProductFolds | asm_6502/grammar.py:205-209 | in `LDA #2*3+4*5` the first product folds to 6 |
| Parser.SecondProductFolds | asm_6502/grammar.py:205-209 | in `LDA #2*3+4*5` the second product folds to 20 |
| Parser.PrecedenceExample | asm_6502/grammar.py:205-209 | `2*3+4*5` parses as (2*3)+(4*5) = 26 and ends the statement |
| Assembly.HandlerOf | asm_6502/assemble.py:57-66 | only ORG, JMP and LDA have handlers, and ORG's is the only ORG handler |
| Assembly.HandlersAreMnemonics | asm_6502/assemble.py:63-68 | among handled keywords, the mnemonics (KEYWORDS) are exactly those other than ORG |
| Assembly.AllowedHasOperand | asm_6502/assemble.py:161-183 | every mode a handler allows carries an operand expression |
| Assembly.Evaluate | asm_6502/assemble.py:148-151 | succeeds exactly when the expression resolves, with that value |
| Assembly.Guard | asm_6502/assemble.py:90-108 | a disallowed mode is the addressing error; the zero-page flag is up exactly for an address or indexed operand that resolves now to at most 0xFF; the only other error is a division by zero |
| Assembly.Size | asm_6502/assemble.py:161-186 | the corrected size pass 1 reserves: ORG takes 0 bytes and nothing else does; JMP takes 3; LDA takes 2 exactly for a non-address operand or a fitting address or X-indexed operand; never above 3 |
| Assembly.SizeAsWritten | asm_6502/assemble.py:181-186 | agrees with `Size` everywhere except a fitting Y-indexed LDA |
| Assembly.EncodeSize | asm_6502/assemble.py:161-207 | the bytes `gen_*` emits are exactly as many as the corrected size; they equal what `pre_*` as written reserves everywhere except a fitting Y-indexed LDA, where they are one more |
| Assembly.SizeAsWrittenMismatch | asm_6502/assemble.py:183-203 | for a fitting `LDA e,Y` the source reserves 2 bytes but emits 3 |
| Assembly.DecodeEncode | asm_6502/assemble.py:174-207 | decoding the emitted bytes through the 6502 opcode table gives back the handler, the addressing form and the operand |
| Assembly.PlanStep | asm_6502/assemble.py:55-74 | one pass-1 step: the label bound to the instruction's offset (ORG's new offset for ORG), one offset and flag appended, the offset advanced by the size, the first mnemonic offset recorded, and the memory ceiling respected |
| Assembly.Plan | asm_6502/assemble.py:55-74 | pass 1 appends one offset and one flag per instruction and accepts every instruction |
| Assembly.LaidExtend | asm_6502/assemble.py:69-74 | a step that keeps earlier entries and appends a consistent one preserves the layout invariant |
| Assembly.LaidEntries | asm_6502/assemble.py:69-74 | after a consistent step every instruction so far is accepted, flagged only on a sized operand, and ends below the memory limit |
| Assembly.LaidChain | asm_6502/assemble.py:69-74 | after a consistent step every non-ORG instruction starts where the previous one ends |
| Assembly.LaidStep | asm_6502/assemble.py:55-74 | each pass-1 step preserves the layout invariant |
| Assembly.PlanNext | asm_6502/assemble.py:55-74 | a successful pass-1 step keeps the layout invariant, and the rest of the pass from the new layout gives the same result |
| Assembly.PlanLaid | asm_6502/assemble.py:55-74 | the layout invariant holds at the end of pass 1: one offset and flag per instruction, flags only on address or indexed operands, each non-ORG instruction placed right after the previous one, every instruction ending below the ceiling |
| Assembly.LayoutShape | asm_6502/assemble.py:38-74 | from the reset state the layout invariant holds at the end, and a program not starting with ORG starts at 0 |
| Assembly.PlanPrefix | asm_6502/assemble.py:69 | later steps never change an offset or flag already recorded |
| Assembly.FirstMnemonic | asm_6502/assemble.py:63-68 | the first index whose keyword is a mnemonic, if any |
| Assembly.CodeStart | asm_6502/assemble.py:63-68 | the recorded start is the offset of the first mnemonic, and stays -1 without one |
| Assembly.CodeStartKept | asm_6502/assemble.py:63-68 | once recorded, the start is never changed |
| Assembly.FlagsHoldStep | asm_6502/assemble.py:98-103 | with unique labels, a raised zero-page flag stays justified after each step |
| Assembly.FlagsHoldPlan | asm_6502/assemble.py:98-103 | with unique labels, every raised flag is still justified at the end of pass 1 |
| Assembly.ZeroPageStable | asm_6502/assemble.py:192-199 | a flagged operand still resolves to at most 0xFF with the final labels, so the one-byte form of pass 2 is sound |
| Assembly.LabelsStep | asm_6502/assemble.py:58-62 | with unique labels, one pass-1 step binds exactly the labels up to the instruction and keeps every earlier binding |
| Assembly.LabelsGrow | asm_6502/assemble.py:55-74 | with unique labels, every binding made in pass 1 is still in the final label table |
| Assembly.PlanKeys | asm_6502/assemble.py:58-62 | the labels bound by pass 1 are exactly those the instructions name |
| Assembly.PlanSplit | asm_6502/assemble.py:55-74 | pass 1 over a program passes through the state it reaches on the first k instructions |
| Assembly.PrefixState | asm_6502/assemble.py:55-74 | the state after the first k instructions has k offsets and flags, the labels of those instructions, and leads to the final layout |
| Assembly.LabelsBeforePrefix | asm_6502/assemble.py:58-62 | the labels of the first k instructions do not depend on the instructions after them |
| Assembly.OperandStable | asm_6502/assemble.py:94-105 | from a state pass 1 reaches, an operand that resolved when its instruction was laid out resolves in pass 2 to the same value |
| Assembly.OperandValueStable | asm_6502/assemble.py:94-116 | with unique labels, any operand (ORG aside) that resolved to a value in pass 1 resolves to that same value in pass 2, whether flagged or not |
| Assembly.Prune | asm_6502/assemble.py:83-84 | removes exactly the trailing empty regions and keeps the rest as a prefix |
| Assembly.OpenEnds | asm_6502/assemble.py:112-115 | after the region step the last region ends at the current offset |
| Assembly.PruneSeparated | asm_6502/assemble.py:83-84 | pruning a well-formed region list leaves non-empty, well-formed regions |
| Assembly.OpenSeparated | asm_6502/assemble.py:112-115 | the region step keeps the region list well formed |
| Assembly.ExtendSeparated | asm_6502/assemble.py:177 | appending bytes to the last region keeps the region list well formed |
| Assembly.Checked | asm_6502/assemble.py:116-120 | succeeds exactly when the operand resolves and a one-byte mode's value is at most 0xFF; a missing label is reported by name |
| Assembly.Emit | asm_6502/assemble.py:110-122 | emission fails exactly when the operand check fails |
| Assembly.EmitLands | asm_6502/assemble.py:110-122 | the earlier regions are kept, and the last region, which ends at the current offset, grows by exactly `Size` bytes with its old bytes as a prefix |
| Assembly.EmitSeparated | asm_6502/assemble.py:110-122 | emission keeps the region list well formed |
| Assembly.Generate | asm_6502/assemble.py:76-82 | pass 2 keeps the region list well formed |
| Assembly.GenerateStep | asm_6502/assemble.py:76-82 | pass 2 emits instruction i at its pass-1 offset and flag, then continues or stops at the first error |
| Assembly.WithEntry | asm_6502/assemble.py:85-87 | the output ends with `JMP code_start` (0x4C, low, high) placed so that it ends at 0xFFFF, and stays well formed |
| Assembly.EntryEmits | asm_6502/assemble.py:85-87 | generating `JMP code_start` at the reset vector always succeeds, with the regions `WithEntry` describes |
| Assembly.AssembleRegions | asm_6502/assemble.py:47-88 | an assembled program is a list of non-empty, well-formed regions, ending in the entry jump to the first mnemonic when requested |
| Assembly.AssembleSpecSteps | asm_6502/assemble.py:54-88 | assembling stops with the first pass-1 error, else with the first pass-2 error, else returns the pruned regions, with the entry jump when requested |
| Assembly.Assembler.constructor | asm_6502/assemble.py:26-36 | keeps the two settings and starts in the reset state |
| Assembly.Assembler.Reset | asm_6502/assemble.py:38-45 | every field is back to its initial value |
| Assembly.Assembler.AddressingGuard | asm_6502/assemble.py:90-108 | result and flag list as `Guard` specifies: one flag appended once the mode is allowed |
| Assembly.Assembler.Pre | asm_6502/assemble.py:161-186 | ORG moves the offset to its operand's value and takes 0 bytes; JMP and LDA leave the offset and return `Size` for the last flag |
| Assembly.Assembler.Prepare | asm_6502/assemble.py:55-74 | one iteration of the first loop leaves exactly the state `PlanStep` gives, or its error |
| Assembly.Assembler.PruneTrailing | asm_6502/assemble.py:83-84 | the region list afterwards is `Prune` of the old one |
| Assembly.Assembler.AssembleGuard | asm_6502/assemble.py:110-122 | opens the region at the current offset and returns the checked operand value |
| Assembly.Assembler.Gen | asm_6502/assemble.py:166-207 | the region list afterwards is the result of `Emit`, or the error is returned |
| Assembly.Assembler.LayOut | asm_6502/assemble.py:55-74 | the first loop leaves exactly the layout `Plan` gives, or its first error |
| Assembly.Assembler.GenAt | asm_6502/assemble.py:76-82 | one iteration of the second loop sets the line and offset and performs one step of `Generate` |
| Assembly.Assembler.Emission | asm_6502/assemble.py:76-82 | the second loop leaves exactly the regions `Generate` gives, or its first error |
| Assembly.Assembler.Passes | asm_6502/assemble.py:54-84 | reset, both loops and pruning: the first error of `Plan` or `Generate`, else the pruned regions with the layout of pass 1 in the fields |
| Assembly.Assembler.AddEntry | asm_6502/assemble.py:85-87 | the offset is the reset vector and the regions are `WithEntry` of the old ones |
| Assembly.Assembler.Assemble | asm_6502/assemble.py:47-88 | returns exactly `AssembleSpec`; on success the fields hold the layout, the regions and the final offset and line |
| Assembly.Assembler.AssembleText | asm_6502/assemble.py:47-54 | source text is lexed, parsed and assembled as `AssembleTextSpec` says; a parse error leaves the object untouched |
| Scenarios.ZeroPageLoad | asm_6502/assemble.py:192-194 | `LDA $35` assembles to one region at 0 holding A5 35 |
| Scenarios.ZeroPageLayout | asm_6502/assemble.py:55-74 | `LDA $35` is laid out at 0 in 2 bytes with its zero-page flag up, and the code starts at 0 |
| Scenarios.ZeroPageCode | asm_6502/assemble.py:76-82 | pass 2 of `LDA $35` emits A5 35 in one region at 0 |
| Scenarios.ForwardJumpLayout | asm_6502/assemble.py:55-74 | `JMP end` / `end LDA #1` is laid out at 0 and 3, with `end` bound to 3 |
| Scenarios.ForwardJumpCode | asm_6502/assemble.py:76-82 | pass 2 of that program emits 4C 03 00 A9 01 |
| Scenarios.JumpToEnd | asm_6502/assemble.py:175-177 | the JMP to the forward label emits 4C 03 00 |
| Scenarios.LoadAfterJump | asm_6502/assemble.py:190-191 | the LDA #1 after it lands at 3 in the same region |
| Scenarios.EmitChecked | asm_6502/assemble.py:110-122 | an operand that passes the check is encoded and appended to the region opened at the offset |
| Scenarios.WriteFresh | asm_6502/assemble.py:112-115 | bytes written with no region yet form one new region at the offset |
| Scenarios.WriteContinues | asm_6502/assemble.py:112-115 | bytes written where the last region ends extend that region |
| Scenarios.ForwardJump | asm_6502/assemble.py:47-88 | the whole program assembles to one region 4C 03 00 A9 01 at 0 |
| Scenarios.YIndexedLayout | asm_6502/assemble.py:55-74 | `LDA $10,Y` / `LDA #1` is laid out at 0 and 3 with the first flagged, under the corrected size |
| Scenarios.YIndexedCode | asm_6502/assemble.py:76-82 | pass 2 of that layout emits B9 10 00 A9 01 in one region |
| Scenarios.YIndexedLoad | asm_6502/assemble.py:47-88 | the whole program assembles, with the corrected size, to one region B9 10 00 A9 01 at 0 |
| Scenarios.YIndexedAsWritten | asm_6502/assemble.py:76-82 | with the offsets `pre_LDA` as written gives (0 and 2), pass 2 emits B9 10 00 at 0 and A9 01 at 2: two regions that overlap |
| Scenarios.IndexedLoad | asm_6502/assemble.py:197-203 | `LDA $10,Y` with the flag up writes B9 10 00 in a fresh region |
| Scenarios.ImmediateAfter | asm_6502/assemble.py:110-122 | `LDA #1` after it continues the region at 3 and opens a new region at any other offset |
| Scenarios.WriteApart | asm_6502/assemble.py:112-115 | bytes written where the last region does not end start a region of their own |

## Left out

- Handlers other than ORG, JMP and LDA (the other mnemonics and the pseudo-ops `.BYTE`, `.WORD`, `.END`) are not part of this model. A keyword without a handler is the `NoHandler` error.
- The generated lexer and parser machinery (the rule tables, `get_parser` and its caching, the reset of the lexer's line counter) is replaced by the `Lex` specification and a recursive-descent parser that reaches the same results and errors.
- Error message text is left out. Errors are values carrying what the message reports: the line, the column, the character, the register, the label, the value.
- `program_entry` is stored and never read, as in the code. The entry jump is always at 0xFFFC.
- Literal operands reach the assembler as plain values. In the source, the tuple tag the resolver checks for a literal is imported from the grammar module, but that module does not define it. The model resolves a literal to its value.
- Emitted operands are not masked: a negative immediate or a negative zero-page value is kept as the integer the code appends. The bytes are `int`, not a byte type.
- Assembly.Assembler.Assemble: the fields are stated only on success. After an error, the values the source leaves in the fields are not specified.
- Assembly.Size: pass 1 of the model reserves the corrected 3 bytes for a fitting Y-indexed LDA, where `pre_LDA` as written reserves 2. So every later offset and label is one byte higher than in the code. A program the code accepts just below the ceiling, such as `ORG $FFFD` then `LDA $10,Y`, is refused with the memory error. The code as written is shown by `SizeAsWritten`, `SizeAsWrittenMismatch` and `Scenarios.YIndexedAsWritten`.
- Assembly.PlanStep: uses the corrected `Size`; see the line above.
- Assembly.Assembler.Pre: returns the corrected `Size`; see the `Assembly.Size` line.
- Three tests of the repository expect other behaviour than the grammar's code, which the model follows: tests/test_parse_error.py:29-32 expects column 12 for `LDA XXX,YYY,ZZZ`, where the code stops with a syntax error at `YYY`, column 9; tests/test_parse_error.py:34-48 expects "Unknown keyword" errors, where the code reports syntax errors; tests/test_parse_addressing.py:55-57 expects `($86),Y` to be indexed-indirect, where the code makes it indirect-indexed.
- Assembly.Assembler.Passes: likewise, the fields are stated only when both passes succeed.
- Assembly.Assembler.AssembleText: the list-of-instructions input of `assemble` is `Assemble`. This method is only the string path.
- Parser.PrecedenceExample: precedence and associativity are shown on one expression; the general grouping is stated only through the shape of the recursive descent.

## Findings

| source | as written | input that shows it | evidently intended | confidence | as-written member | corrected member |
|---|---|---|---|---|---|---|
| asm_6502/assemble.py:183-186 | `pre_LDA` reserves 2 bytes for any address or indexed operand that fits the zero page, including one indexed by Y | `LDA $10,Y`: 2 bytes are reserved, but `gen_LDA` emits the 3 bytes B9 10 00, so every later offset and label is one byte short; `LDA $10,Y` then `LDA #1` gives two overlapping regions, B9 10 00 at 0 and A9 01 at 2 (`Scenarios.YIndexedAsWritten`) | 3 bytes for a Y-indexed operand, since the 6502 has no zero-page,Y form of LDA | not executed | Assembly.SizeAsWrittenMismatch | Assembly.EncodeSize |
