/** The two-pass assembler of asm_6502/assemble.py: pass 1 lays the instructions out
    (label binding, zero-page decisions, sizes, offsets), pass 2 encodes them into code
    regions, and an entry jump may be written at the reset vector. The pure functions
    below state what each step computes; the `Assembler` class performs the same steps
    on its fields, as the source does, and its methods are proved against them. */
module Assembly {
  import opened Integers
  import opened Outcomes
  import opened Syntax
  import opened Resolution
  import opened Lexer
  import opened Parser

  /** The keywords that have `pre_*`/`gen_*` handlers. */
  datatype Opcode = Org | Jmp | Lda

  /** `AssembleError`, one variant per place the source raises it (and the
      ZeroDivisionError a resolution can raise), each with the line being assembled. */
  datatype AsmError =
    | NoHandler(keyword: string, line: int)
    | AddressingNotAllowed(op: Opcode, line: int)
    | UnresolvedLabel(name: string, line: int)
    | DivisionByZero(line: int)
    | ExceedsMemory(maxMemory: int, line: int)
    | ValueTooLarge(value: int, line: int)

  /** `(offset, bytes)`: a run of emitted bytes starting at `start`. Bytes are integers
      because operands are emitted without masking. */
  datatype Region = Region(start: int, bytes: seq<int>)

  /** The address just past the region. */
  function End(r: Region): int { r.start + |r.bytes| }

  /** The address of the reset vector the entry jump is written to. */
  const EntryVector := 0xFFFC

  /** The default memory ceiling of the constructor. */
  const DefaultMaxMemory := 0x10000

  // ---------------------------------------------------------------------------------
  // Handlers, guards and sizes

  /** The `pre_`/`gen_` handler a keyword names: only ORG, JMP and LDA have one. */
  function HandlerOf(keyword: string): (op: Option<Opcode>)
    ensures op.Some? ==> keyword in {"ORG", "JMP", "LDA"}
    ensures op == Some(Org) <==> keyword == "ORG"
  {
    if keyword == "ORG" then Some(Org)
    else if keyword == "JMP" then Some(Jmp)
    else if keyword == "LDA" then Some(Lda)
    else None
  }

  /** JMP and LDA are in KEYWORDS, ORG is not. */
  lemma HandlersAreMnemonics(keyword: string)
    requires HandlerOf(keyword).Some?
    ensures IsMnemonic(keyword) <==> HandlerOf(keyword) != Some(Org)
  {
  }

  /** The `allowed` sets of the handlers' addressing guards. */
  predicate Allowed(op: Opcode, a: Addressing) {
    match op
    case Org => a.Address?
    case Jmp => a.Address? || a.Indirect?
    case Lda => a.Immediate? || a.Address? || a.Indexed? || a.IndexedIndirect? || a.IndirectIndexed?
  }

  /** An instruction the first pass lets through: it has a handler and the handler
      takes its addressing mode. */
  predicate Accepted(inst: Instruction) {
    HandlerOf(inst.keyword).Some? && Allowed(HandlerOf(inst.keyword).value, inst.addressing)
  }

  lemma AllowedHasOperand(op: Opcode, a: Addressing)
    requires Allowed(op, a)
    ensures a.HasOperand()
  {
  }

  /** `_resolve_address` as the assembler raises its failures. */
  function Evaluate(e: Expr, labels: map<string, int>, current: int, line: int): (r: Result<int, AsmError>)
    ensures r.Ok? <==> Resolve(e, labels, current).Known?
    ensures r.Ok? ==> r.value == Resolve(e, labels, current).value
  {
    match Resolve(e, labels, current)
    case Known(v) => Ok(v)
    case MissingLabel(name) => Err(UnresolvedLabel(name, line))
    case ZeroDivisor => Err(DivisionByZero(line))
  }

  /** Whether an operand goes through the zero-page test of the first pass. */
  predicate Sized(a: Addressing) {
    a.Address? || a.Indexed?
  }

  /** `_addressing_guard`: a mode outside the handler's set is refused; otherwise the
      zero-page flag is whether an address or indexed operand already resolves, with
      the labels bound so far, to at most 0xFF. A label not bound yet leaves the flag
      down without an error; a division by zero is not caught. */
  function Guard(op: Opcode, a: Addressing, labels: map<string, int>, current: int, line: int): (r: Result<bool, AsmError>)
    ensures !Allowed(op, a) <==> r == Err(AddressingNotAllowed(op, line))
    ensures r.Ok? && r.value <==>
              Allowed(op, a) && Sized(a) && Resolve(a.value, labels, current).Known? &&
              Resolve(a.value, labels, current).value <= ByteMax
    ensures Allowed(op, a) && r.Err? <==>
              Allowed(op, a) && Sized(a) && Resolve(a.value, labels, current) == ZeroDivisor
    ensures r.Err? ==> r.error.line == line
  {
    if !Allowed(op, a) then Err(AddressingNotAllowed(op, line))
    else if Sized(a) then
      match Resolve(a.value, labels, current)
      case Known(v) => Ok(v <= ByteMax)
      case MissingLabel(_) => Ok(false)
      case ZeroDivisor => Err(DivisionByZero(line))
    else Ok(false)
  }

  /** The size pass 1 of this model reserves, which is the corrected `pre_*`: ORG takes
      no room, JMP takes three bytes, LDA takes two except for an address or X-indexed
      operand that did not fit the zero page. An operand indexed by Y always takes
      three, because the 6502 has no zero-page,Y form of LDA; `pre_LDA` returns 2 for
      a fitting one (`SizeAsWritten`). */
  function Size(op: Opcode, a: Addressing, fit: bool): (n: nat)
    ensures n == 0 <==> op == Org
    ensures op == Jmp ==> n == 3
    ensures op == Lda ==> (n == 2 <==> !Sized(a) || (fit && (a.Address? || a.register == X)))
    ensures n <= 3
  {
    match op
    case Org => 0
    case Jmp => 3
    case Lda =>
      if a.Address? then (if fit then 2 else 3)
      else if a.Indexed? then (if fit && a.register == X then 2 else 3)
      else 2
  }

  /** `pre_LDA` and friends exactly as the source writes them: an indexed operand that
      fits the zero page takes two bytes whatever the register. */
  function SizeAsWritten(op: Opcode, a: Addressing, fit: bool): (n: nat)
    ensures !(op == Lda && a.Indexed? && a.register != X && fit) ==> n == Size(op, a, fit)
  {
    match op
    case Org => 0
    case Jmp => 3
    case Lda => if Sized(a) then (if fit then 2 else 3) else 2
  }

  // ---------------------------------------------------------------------------------
  // Encoding (`gen_*`)

  /** The bytes `gen_*` emits for a resolved operand value `v`; the zero-page choice is
      the first pass's flag, not a new test of `v`. */
  function Encode(op: Opcode, a: Addressing, v: int, fit: bool): (bytes: seq<int>)
    requires Allowed(op, a)
  {
    match op
    case Org => []
    case Jmp => [if a.Address? then 0x4C else 0x6C, LowOf(v), HighOf(v)]
    case Lda =>
      if a.Immediate? then [0xA9, v]
      else if a.Address? then (if fit then [0xA5, v] else [0xAD, LowOf(v), HighOf(v)])
      else if a.Indexed? then
        (if fit && a.register == X then [0xB5, v]
         else if a.register == X then [0xBD, LowOf(v), HighOf(v)]
         else [0xB9, LowOf(v), HighOf(v)])
      else if a.IndexedIndirect? then [0xA1, v]
      else [0xB1, v]
  }

  /** Pass 2 emits exactly as many bytes as pass 1 reserved with the corrected size, and
      as many as the source's `pre_*` reserves everywhere except a fitting Y-indexed
      LDA. */
  lemma EncodeSize(op: Opcode, a: Addressing, v: int, fit: bool)
    requires Allowed(op, a)
    ensures |Encode(op, a, v, fit)| == Size(op, a, fit)
    ensures !(op == Lda && a.Indexed? && a.register != X && fit) ==>
              |Encode(op, a, v, fit)| == SizeAsWritten(op, a, fit)
    ensures op == Lda && a.Indexed? && a.register != X && fit ==>
              |Encode(op, a, v, fit)| == SizeAsWritten(op, a, fit) + 1
  {
  }

  /** As written, `LDA zp,Y` reserves two bytes but emits three, so the next
      instruction is laid out on top of the last byte. */
  lemma SizeAsWrittenMismatch(e: Expr, v: int)
    ensures SizeAsWritten(Lda, Indexed(e, Y), true) == 2
    ensures |Encode(Lda, Indexed(e, Y), v, true)| == 3
  {
  }

  /** The 6502 forms these handlers use, as an independent opcode table. */
  datatype Form = ImmediateForm | ZeroPage | Absolute | ZeroPageX | AbsoluteX | AbsoluteY
                | IndirectForm | IndexedIndirectX | IndirectIndexedY

  /** The number of operand bytes of a form. */
  function OperandWidth(f: Form): nat {
    match f
    case Absolute => 2
    case AbsoluteX => 2
    case AbsoluteY => 2
    case IndirectForm => 2
    case _ => 1
  }

  /** The form the assembler picks for an operand, given the zero-page flag. */
  function FormOf(op: Opcode, a: Addressing, fit: bool): Form
    requires op != Org && Allowed(op, a)
  {
    if op == Jmp then (if a.Address? then Absolute else IndirectForm)
    else if a.Immediate? then ImmediateForm
    else if a.Address? then (if fit then ZeroPage else Absolute)
    else if a.Indexed? then (if fit && a.register == X then ZeroPageX else if a.register == X then AbsoluteX else AbsoluteY)
    else if a.IndexedIndirect? then IndexedIndirectX
    else IndirectIndexedY
  }

  /** A decoded instruction: which handler, which form, which operand value. */
  datatype Decoded = Decoded(op: Opcode, form: Form, operand: int)

  /** The opcode table read backwards. */
  function FormOfOpcode(b: int): Option<(Opcode, Form)> {
    if b == 0x4C then Some((Jmp, Absolute))
    else if b == 0x6C then Some((Jmp, IndirectForm))
    else if b == 0xA9 then Some((Lda, ImmediateForm))
    else if b == 0xA5 then Some((Lda, ZeroPage))
    else if b == 0xAD then Some((Lda, Absolute))
    else if b == 0xB5 then Some((Lda, ZeroPageX))
    else if b == 0xBD then Some((Lda, AbsoluteX))
    else if b == 0xB9 then Some((Lda, AbsoluteY))
    else if b == 0xA1 then Some((Lda, IndexedIndirectX))
    else if b == 0xB1 then Some((Lda, IndirectIndexedY))
    else None
  }

  /** Reads one instruction: an opcode byte and its little-endian operand. */
  function Decode(bytes: seq<int>): Option<Decoded> {
    if |bytes| == 0 then None
    else
      match FormOfOpcode(bytes[0])
      case None => None
      case Some((op, f)) =>
        if |bytes| != 1 + OperandWidth(f) then None
        else if OperandWidth(f) == 1 then Some(Decoded(op, f, bytes[1]))
        else Some(Decoded(op, f, bytes[1] + 0x100 * bytes[2]))
  }

  /** Decoding what was encoded gives back the handler, the form and the operand,
      whenever the operand fits the form's width. */
  lemma DecodeEncode(op: Opcode, a: Addressing, v: int, fit: bool)
    requires op != Org && Allowed(op, a)
    requires 0 <= v < (if OperandWidth(FormOf(op, a, fit)) == 1 then 0x100 else 0x10000)
    ensures Decode(Encode(op, a, v, fit)) == Some(Decoded(op, FormOf(op, a, fit), v))
  {
    if OperandWidth(FormOf(op, a, fit)) == 2 {
      HighLowRecompose(v);
    }
  }

  // ---------------------------------------------------------------------------------
  // Pass 1: layout

  /** The fields pass 1 builds: the current offset, each instruction's offset and
      zero-page flag, the label table and the offset of the first mnemonic. */
  datatype Layout = Layout(offset: int, offsets: seq<int>, fits: seq<bool>,
                           labels: map<string, int>, codeStart: int)

  /** The state `reset` leaves. */
  const Fresh := Layout(0, [], [], map[], -1)

  /** One iteration of the first loop of `assemble`. A label is bound to the offset
      before the handler runs, except on an ORG line, where it is bound to the offset
      ORG sets. ORG takes its operand as the new offset and no room; other handlers
      take `Size` bytes. The first mnemonic fixes the entry offset (while it is still
      -1); of the keywords with a handler, every one but ORG is a mnemonic (see
      `HandlersAreMnemonics`). The next offset must stay below the memory ceiling. */
  function PlanStep(s: Layout, inst: Instruction, maxMemory: int): (r: Result<Layout, AsmError>)
    ensures r.Ok? ==> Accepted(inst)
    ensures HandlerOf(inst.keyword).None? ==> r == Err(NoHandler(inst.keyword, inst.line))
    ensures r.Ok? ==> |r.value.offsets| == |s.offsets| + 1 && |r.value.fits| == |s.fits| + 1
    ensures r.Ok? ==> r.value.offsets == s.offsets + [r.value.offsets[|s.offsets|]]
    ensures r.Ok? ==> r.value.fits == s.fits + [r.value.fits[|s.fits|]]
    ensures r.Ok? && r.value.fits[|s.fits|] ==> Sized(inst.addressing)
    ensures r.Ok? && inst.keyword != "ORG" ==> r.value.offsets[|s.offsets|] == s.offset
    ensures r.Ok? ==> r.value.offset == r.value.offsets[|s.offsets|] + SizeOf(inst, r.value.fits[|s.fits|])
    ensures r.Ok? ==> r.value.offset < maxMemory
    ensures r.Ok? && inst.labelName.Some? ==>
              r.value.labels == s.labels[inst.labelName.value := r.value.offsets[|s.offsets|]]
    ensures r.Ok? && inst.labelName.None? ==> r.value.labels == s.labels
    ensures r.Ok? ==>
              r.value.codeStart ==
              (if s.codeStart == -1 && inst.keyword != "ORG" then r.value.offsets[|s.offsets|] else s.codeStart)
  {
    if HandlerOf(inst.keyword).None? then Err(NoHandler(inst.keyword, inst.line))
    else
      var op := HandlerOf(inst.keyword).value;
      var labels := if inst.labelName.Some? && op != Org then s.labels[inst.labelName.value := s.offset] else s.labels;
      var fit :- Guard(op, inst.addressing, labels, s.offset, inst.line);
      var start :- if op == Org then Evaluate(inst.addressing.value, labels, s.offset, inst.line) else Ok(s.offset);
      var bound := if inst.labelName.Some? && op == Org then labels[inst.labelName.value := start] else labels;
      var next := start + Size(op, inst.addressing, fit);
      if next >= maxMemory then Err(ExceedsMemory(maxMemory, inst.line))
      else
        Ok(Layout(next, s.offsets + [start], s.fits + [fit], bound,
                  if s.codeStart == -1 && op != Org then start else s.codeStart))
  }

  /** The size of an accepted instruction. */
  function SizeOf(inst: Instruction, fit: bool): nat
    requires Accepted(inst)
  {
    Size(HandlerOf(inst.keyword).value, inst.addressing, fit)
  }

  /** The first loop of `assemble` from instruction `i` on. */
  function Plan(insts: seq<Instruction>, i: nat, s: Layout, maxMemory: int): (r: Result<Layout, AsmError>)
    requires i <= |insts|
    ensures r.Ok? ==> |r.value.offsets| == |s.offsets| + |insts| - i
    ensures r.Ok? ==> |r.value.fits| == |s.fits| + |insts| - i
    ensures r.Ok? ==> forall k :: i <= k < |insts| ==> Accepted(insts[k])
    decreases |insts| - i
  {
    if i == |insts| then Ok(s)
    else
      var next :- PlanStep(s, insts[i], maxMemory);
      Plan(insts, i + 1, next, maxMemory)
  }

  /** Facts about the layout of `insts[..i]` in `s`, kept by every step of pass 1. */
  ghost predicate Laid(insts: seq<Instruction>, i: nat, s: Layout, maxMemory: int) {
    i <= |insts| && |s.offsets| == i && |s.fits| == i &&
    (forall k :: 0 <= k < i ==> Accepted(insts[k])) &&
    (forall k :: 0 <= k < i ==> s.fits[k] ==> Sized(insts[k].addressing)) &&
    (forall k :: 0 <= k < i ==> s.offsets[k] + SizeOf(insts[k], s.fits[k]) < maxMemory) &&
    (forall k :: 0 < k < i && insts[k].keyword != "ORG" ==>
       s.offsets[k] == s.offsets[k - 1] + SizeOf(insts[k - 1], s.fits[k - 1])) &&
    (i > 0 ==> s.offset == s.offsets[i - 1] + SizeOf(insts[i - 1], s.fits[i - 1])) &&
    (i == 0 ==> s.offset == 0)
  }

  /** `Laid` is kept by any step with the shape `PlanStep` guarantees. */
  lemma LaidExtend(insts: seq<Instruction>, i: nat, s: Layout, t: Layout, maxMemory: int)
    requires i < |insts| && Laid(insts, i, s, maxMemory) && Accepted(insts[i])
    requires |t.offsets| == i + 1 && |t.fits| == i + 1
    requires t.offsets == s.offsets + [t.offsets[i]] && t.fits == s.fits + [t.fits[i]]
    requires t.fits[i] ==> Sized(insts[i].addressing)
    requires insts[i].keyword != "ORG" ==> t.offsets[i] == s.offset
    requires t.offset == t.offsets[i] + SizeOf(insts[i], t.fits[i]) && t.offset < maxMemory
    ensures Laid(insts, i + 1, t, maxMemory)
  {
    LaidEntries(insts, i, s, t, maxMemory);
    LaidChain(insts, i, s, t, maxMemory);
  }

  /** The per-instruction facts of `Laid` after such a step. */
  lemma LaidEntries(insts: seq<Instruction>, i: nat, s: Layout, t: Layout, maxMemory: int)
    requires i < |insts| && Laid(insts, i, s, maxMemory) && Accepted(insts[i])
    requires |t.offsets| == i + 1 && |t.fits| == i + 1
    requires t.offsets == s.offsets + [t.offsets[i]] && t.fits == s.fits + [t.fits[i]]
    requires t.fits[i] ==> Sized(insts[i].addressing)
    requires insts[i].keyword != "ORG" ==> t.offsets[i] == s.offset
    requires t.offset == t.offsets[i] + SizeOf(insts[i], t.fits[i]) && t.offset < maxMemory
    ensures forall k :: 0 <= k < i + 1 ==> Accepted(insts[k])
    ensures forall k :: 0 <= k < i + 1 ==> t.fits[k] ==> Sized(insts[k].addressing)
    ensures forall k :: 0 <= k < i + 1 ==> t.offsets[k] + SizeOf(insts[k], t.fits[k]) < maxMemory
  {
    forall k | 0 <= k < i
      ensures t.offsets[k] == s.offsets[k] && t.fits[k] == s.fits[k]
    {
    }
  }

  /** The adjacency fact of `Laid` after such a step. */
  lemma LaidChain(insts: seq<Instruction>, i: nat, s: Layout, t: Layout, maxMemory: int)
    requires i < |insts| && Laid(insts, i, s, maxMemory) && Accepted(insts[i])
    requires |t.offsets| == i + 1 && |t.fits| == i + 1
    requires t.offsets == s.offsets + [t.offsets[i]] && t.fits == s.fits + [t.fits[i]]
    requires t.fits[i] ==> Sized(insts[i].addressing)
    requires insts[i].keyword != "ORG" ==> t.offsets[i] == s.offset
    requires t.offset == t.offsets[i] + SizeOf(insts[i], t.fits[i]) && t.offset < maxMemory
    ensures forall k :: 0 < k < i + 1 && insts[k].keyword != "ORG" ==>
              t.offsets[k] == t.offsets[k - 1] + SizeOf(insts[k - 1], t.fits[k - 1])
  {
    forall k | 0 <= k < i
      ensures t.offsets[k] == s.offsets[k] && t.fits[k] == s.fits[k]
    {
    }
  }

  lemma LaidStep(insts: seq<Instruction>, i: nat, s: Layout, maxMemory: int)
    requires i < |insts| && Laid(insts, i, s, maxMemory) && PlanStep(s, insts[i], maxMemory).Ok?
    ensures Laid(insts, i + 1, PlanStep(s, insts[i], maxMemory).value, maxMemory)
  {
    LaidExtend(insts, i, s, PlanStep(s, insts[i], maxMemory).value, maxMemory);
  }

  /** One step of pass 1 that succeeds keeps `Laid` and leaves the rest of the pass to do. */
  lemma PlanNext(insts: seq<Instruction>, i: nat, s: Layout, maxMemory: int) returns (t: Layout)
    requires i < |insts| && Laid(insts, i, s, maxMemory) && Plan(insts, i, s, maxMemory).Ok?
    ensures Laid(insts, i + 1, t, maxMemory) && Plan(insts, i + 1, t, maxMemory) == Plan(insts, i, s, maxMemory)
  {
    t := PlanStep(s, insts[i], maxMemory).value;
    LaidStep(insts, i, s, maxMemory);
  }

  lemma {:induction false} PlanLaid(insts: seq<Instruction>, i: nat, s: Layout, maxMemory: int, last: Layout)
    requires Laid(insts, i, s, maxMemory) && Plan(insts, i, s, maxMemory) == Ok(last)
    ensures Laid(insts, |insts|, last, maxMemory)
    decreases |insts| - i
  {
    if i < |insts| {
      var t := PlanNext(insts, i, s, maxMemory);
      PlanLaid(insts, i + 1, t, maxMemory, last);
    } else {
      assert s == last;
    }
  }

  /** The layout pass 1 produces: every instruction has a handler that takes its mode,
      one offset and one flag; a flag is only ever set for an address or indexed
      operand; every instruction ends below the memory ceiling; and each instruction
      other than ORG starts where the previous one ends (the first at 0). */
  lemma LayoutShape(insts: seq<Instruction>, maxMemory: int)
    requires Plan(insts, 0, Fresh, maxMemory).Ok?
    ensures Laid(insts, |insts|, Plan(insts, 0, Fresh, maxMemory).value, maxMemory)
    ensures |insts| > 0 && insts[0].keyword != "ORG" ==> Plan(insts, 0, Fresh, maxMemory).value.offsets[0] == 0
  {
    PlanLaid(insts, 0, Fresh, maxMemory, Plan(insts, 0, Fresh, maxMemory).value);
    if |insts| > 0 && insts[0].keyword != "ORG" {
      var s1 := PlanStep(Fresh, insts[0], maxMemory).value;
      PlanPrefix(insts, 1, s1, maxMemory, 0);
    }
  }

  /** Later steps leave the offsets and flags of earlier instructions alone. */
  lemma {:induction false} PlanPrefix(insts: seq<Instruction>, i: nat, s: Layout, maxMemory: int, k: nat)
    requires i <= |insts| && k < |s.offsets| && k < |s.fits| && Plan(insts, i, s, maxMemory).Ok?
    ensures Plan(insts, i, s, maxMemory).value.offsets[k] == s.offsets[k]
    ensures Plan(insts, i, s, maxMemory).value.fits[k] == s.fits[k]
    decreases |insts| - i
  {
    if i < |insts| {
      var t := PlanStep(s, insts[i], maxMemory).value;
      PlanPrefix(insts, i + 1, t, maxMemory, k);
    }
  }

  // ---------------------------------------------------------------------------------
  // The entry offset

  /** The index of the first mnemonic from `i` on, if any. */
  function FirstMnemonic(insts: seq<Instruction>, i: nat): (j: Option<nat>)
    requires i <= |insts|
    ensures j.Some? ==> i <= j.value < |insts| && IsMnemonic(insts[j.value].keyword)
    ensures j.Some? ==> forall k :: i <= k < j.value ==> !IsMnemonic(insts[k].keyword)
    ensures j.None? ==> forall k :: i <= k < |insts| ==> !IsMnemonic(insts[k].keyword)
    decreases |insts| - i
  {
    if i == |insts| then None
    else if IsMnemonic(insts[i].keyword) then Some(i)
    else FirstMnemonic(insts, i + 1)
  }

  /** `code_start` is the offset of the first mnemonic (-1 when there is none), as
      long as that offset is not itself -1, which the source takes for "not yet set". */
  lemma {:induction false} CodeStart(insts: seq<Instruction>, i: nat, s: Layout, maxMemory: int)
    requires i <= |insts| && |s.offsets| == i && |s.fits| == i && Plan(insts, i, s, maxMemory).Ok?
    requires s.codeStart == -1
    ensures var p := Plan(insts, i, s, maxMemory).value;
            var j := FirstMnemonic(insts, i);
            (j.None? ==> p.codeStart == -1) &&
            (j.Some? && p.offsets[j.value] != -1 ==> p.codeStart == p.offsets[j.value])
    decreases |insts| - i
  {
    if i < |insts| {
      var t := PlanStep(s, insts[i], maxMemory).value;
      HandlersAreMnemonics(insts[i].keyword);
      if IsMnemonic(insts[i].keyword) && t.offsets[i] != -1 {
        CodeStartKept(insts, i + 1, t, maxMemory);
        PlanPrefix(insts, i + 1, t, maxMemory, i);
      } else if IsMnemonic(insts[i].keyword) {
        PlanPrefix(insts, i + 1, t, maxMemory, i);
      } else {
        CodeStart(insts, i + 1, t, maxMemory);
      }
    }
  }

  /** Once set to something other than -1, the entry offset stays. */
  lemma {:induction false} CodeStartKept(insts: seq<Instruction>, i: nat, s: Layout, maxMemory: int)
    requires i <= |insts| && Plan(insts, i, s, maxMemory).Ok? && s.codeStart != -1
    ensures Plan(insts, i, s, maxMemory).value.codeStart == s.codeStart
    decreases |insts| - i
  {
    if i < |insts| {
      CodeStartKept(insts, i + 1, PlanStep(s, insts[i], maxMemory).value, maxMemory);
    }
  }

  // ---------------------------------------------------------------------------------
  // Zero-page stability

  /** No label is bound by two instructions. */
  predicate UniqueLabels(insts: seq<Instruction>) {
    forall a, b :: 0 <= a < b < |insts| && insts[a].labelName.Some? && insts[b].labelName.Some? ==>
      insts[a].labelName.value != insts[b].labelName.value
  }

  /** The labels the instructions before `i` bind. */
  function LabelsBefore(insts: seq<Instruction>, i: nat): set<string>
    requires i <= |insts|
  {
    set k | 0 <= k < i && insts[k].labelName.Some? :: insts[k].labelName.value
  }

  /** An operand that resolves, at offset `current`, to at most 0xFF. */
  predicate FitsAt(a: Addressing, labels: map<string, int>, current: int) {
    a.HasOperand() && Resolve(a.value, labels, current).Known? && Resolve(a.value, labels, current).value <= ByteMax
  }

  /** Pass 1 so far: the labels bound are those of `insts[..i]`, and every flagged
      instruction other than ORG still resolves, at its own offset, within a byte. */
  ghost predicate FlagsHold(insts: seq<Instruction>, i: nat, s: Layout) {
    i <= |insts| && |s.offsets| == i && |s.fits| == i &&
    s.labels.Keys == LabelsBefore(insts, i) &&
    forall k :: 0 <= k < i && s.fits[k] && insts[k].keyword != "ORG" ==>
      FitsAt(insts[k].addressing, s.labels, s.offsets[k])
  }

  lemma FlagsHoldStep(insts: seq<Instruction>, i: nat, s: Layout, maxMemory: int)
    requires i < |insts| && UniqueLabels(insts) && FlagsHold(insts, i, s)
    requires PlanStep(s, insts[i], maxMemory).Ok?
    ensures FlagsHold(insts, i + 1, PlanStep(s, insts[i], maxMemory).value)
  {
    var t := PlanStep(s, insts[i], maxMemory).value;
    var inst := insts[i];
    assert LabelsBefore(insts, i + 1) ==
           LabelsBefore(insts, i) + (if inst.labelName.Some? then {inst.labelName.value} else {});
    if inst.labelName.Some? {
      assert inst.labelName.value !in s.labels;
    }
    assert SubMap(s.labels, t.labels);
    forall k | 0 <= k < i + 1 && t.fits[k] && insts[k].keyword != "ORG"
      ensures FitsAt(insts[k].addressing, t.labels, t.offsets[k])
    {
      if k < i {
        ResolveStable(insts[k].addressing.value, s.labels, t.labels, s.offsets[k]);
      }
    }
  }

  lemma {:induction false} FlagsHoldPlan(insts: seq<Instruction>, i: nat, s: Layout, maxMemory: int)
    requires UniqueLabels(insts) && FlagsHold(insts, i, s) && Plan(insts, i, s, maxMemory).Ok?
    ensures FlagsHold(insts, |insts|, Plan(insts, i, s, maxMemory).value)
    decreases |insts| - i
  {
    if i < |insts| {
      FlagsHoldStep(insts, i, s, maxMemory);
      FlagsHoldPlan(insts, i + 1, PlanStep(s, insts[i], maxMemory).value, maxMemory);
    }
  }

  /** Zero-page stability: when no label is bound twice, an operand pass 1 found to fit
      the zero page resolves in pass 2 (all labels bound, offset restored) to the same
      kind of value, at most 0xFF, so its one-byte encoding is the value itself. */
  lemma ZeroPageStable(insts: seq<Instruction>, maxMemory: int, k: nat)
    requires UniqueLabels(insts) && Plan(insts, 0, Fresh, maxMemory).Ok?
    requires k < |insts| && insts[k].keyword != "ORG"
    requires Plan(insts, 0, Fresh, maxMemory).value.fits[k]
    ensures var p := Plan(insts, 0, Fresh, maxMemory).value;
            FitsAt(insts[k].addressing, p.labels, p.offsets[k])
  {
    assert LabelsBefore(insts, 0) == {};
    FlagsHoldPlan(insts, 0, Fresh, maxMemory);
  }

  /** Pass 1 only adds labels: with no label bound twice, every binding of a state
      pass 1 reaches is still in the final table. */
  lemma {:induction false} LabelsGrow(insts: seq<Instruction>, i: nat, s: Layout, maxMemory: int)
    requires i <= |insts| && UniqueLabels(insts) && s.labels.Keys == LabelsBefore(insts, i)
    requires Plan(insts, i, s, maxMemory).Ok?
    ensures SubMap(s.labels, Plan(insts, i, s, maxMemory).value.labels)
    decreases |insts| - i
  {
    if i < |insts| {
      var t := PlanStep(s, insts[i], maxMemory).value;
      LabelsStep(insts, i, s, maxMemory);
      LabelsGrow(insts, i + 1, t, maxMemory);
      assert Plan(insts, i, s, maxMemory) == Plan(insts, i + 1, t, maxMemory);
    }
  }

  /** One step of pass 1 binds the instruction's own label, which is new. */
  lemma LabelsStep(insts: seq<Instruction>, i: nat, s: Layout, maxMemory: int)
    requires i < |insts| && UniqueLabels(insts) && s.labels.Keys == LabelsBefore(insts, i)
    requires PlanStep(s, insts[i], maxMemory).Ok?
    ensures var t := PlanStep(s, insts[i], maxMemory).value;
            t.labels.Keys == LabelsBefore(insts, i + 1) && SubMap(s.labels, t.labels)
  {
    var inst := insts[i];
    assert LabelsBefore(insts, i + 1) ==
           LabelsBefore(insts, i) + (if inst.labelName.Some? then {inst.labelName.value} else {});
    if inst.labelName.Some? {
      assert inst.labelName.value !in s.labels;
    }
  }

  /** The labels bound after pass 1 on the first `k` instructions are theirs. */
  lemma {:induction false} PlanKeys(insts: seq<Instruction>, i: nat, s: Layout, maxMemory: int)
    requires i <= |insts| && s.labels.Keys == LabelsBefore(insts, i) && Plan(insts, i, s, maxMemory).Ok?
    ensures Plan(insts, i, s, maxMemory).value.labels.Keys == LabelsBefore(insts, |insts|)
    decreases |insts| - i
  {
    if i < |insts| {
      var t := PlanStep(s, insts[i], maxMemory).value;
      var inst := insts[i];
      assert LabelsBefore(insts, i + 1) ==
             LabelsBefore(insts, i) + (if inst.labelName.Some? then {inst.labelName.value} else {});
      PlanKeys(insts, i + 1, t, maxMemory);
      assert Plan(insts, i, s, maxMemory) == Plan(insts, i + 1, t, maxMemory);
    }
  }

  /** Pass 1 over a program passes through the state pass 1 reaches on its first `k`
      instructions. */
  lemma {:induction false} PlanSplit(insts: seq<Instruction>, k: nat, i: nat, s: Layout, maxMemory: int)
    requires i <= k <= |insts| && Plan(insts, i, s, maxMemory).Ok?
    ensures Plan(insts[..k], i, s, maxMemory).Ok?
    ensures Plan(insts, i, s, maxMemory) == Plan(insts, k, Plan(insts[..k], i, s, maxMemory).value, maxMemory)
    decreases k - i
  {
    if i < k {
      assert insts[..k][i] == insts[i];
      var t := PlanStep(s, insts[i], maxMemory).value;
      PlanSplit(insts, k, i + 1, t, maxMemory);
      assert Plan(insts[..k], i, s, maxMemory) == Plan(insts[..k], i + 1, t, maxMemory);
      assert Plan(insts, i, s, maxMemory) == Plan(insts, i + 1, t, maxMemory);
    } else {
      assert Plan(insts[..k], k, s, maxMemory) == Ok(s);
    }
  }

  /** The labels `_addressing_guard` resolves an operand with in pass 1: those bound so
      far, plus the instruction's own label at the current offset (ORG aside). */
  function GuardLabels(s: Layout, inst: Instruction): map<string, int> {
    if inst.labelName.Some? && inst.keyword != "ORG" then s.labels[inst.labelName.value := s.offset]
    else s.labels
  }

  /** From a state of pass 1 that has bound exactly the labels before instruction `i`:
      an operand (ORG aside) that resolved in pass 1 resolves in pass 2, with the final
      labels at the recorded offset, to the same value. */
  lemma OperandStable(insts: seq<Instruction>, i: nat, s: Layout, maxMemory: int)
    requires i < |insts| && UniqueLabels(insts) && |s.offsets| == i && |s.fits| == i
    requires s.labels.Keys == LabelsBefore(insts, i) && Plan(insts, i, s, maxMemory).Ok?
    requires insts[i].keyword != "ORG" && insts[i].addressing.HasOperand()
    requires Resolve(insts[i].addressing.value, GuardLabels(s, insts[i]), s.offset).Known?
    ensures var p := Plan(insts, i, s, maxMemory).value;
            Resolve(insts[i].addressing.value, p.labels, p.offsets[i]) ==
              Resolve(insts[i].addressing.value, GuardLabels(s, insts[i]), s.offset)
  {
    var t := PlanStep(s, insts[i], maxMemory).value;
    assert Plan(insts, i, s, maxMemory) == Plan(insts, i + 1, t, maxMemory);
    assert t.labels == GuardLabels(s, insts[i]) && t.offsets[i] == s.offset;
    LabelsStep(insts, i, s, maxMemory);
    LabelsGrow(insts, i + 1, t, maxMemory);
    PlanPrefix(insts, i + 1, t, maxMemory, i);
    ResolveStable(insts[i].addressing.value, t.labels, Plan(insts, i, s, maxMemory).value.labels, s.offset);
  }

  /** Operand stability over a whole program: when no label is bound twice, an operand
      (ORG aside) that resolved to a value when pass 1 laid out instruction `k` resolves
      to that same value in pass 2, flagged or not. */
  lemma OperandValueStable(insts: seq<Instruction>, maxMemory: int, k: nat)
    requires UniqueLabels(insts) && Plan(insts, 0, Fresh, maxMemory).Ok?
    requires k < |insts| && insts[k].keyword != "ORG" && insts[k].addressing.HasOperand()
    ensures Plan(insts[..k], 0, Fresh, maxMemory).Ok? &&
            var s := Plan(insts[..k], 0, Fresh, maxMemory).value;
            var p := Plan(insts, 0, Fresh, maxMemory).value;
            var e := insts[k].addressing.value;
            Resolve(e, GuardLabels(s, insts[k]), s.offset).Known? ==>
              Resolve(e, p.labels, p.offsets[k]) == Resolve(e, GuardLabels(s, insts[k]), s.offset)
  {
    PrefixState(insts, k, maxMemory);
    var s := Plan(insts[..k], 0, Fresh, maxMemory).value;
    if Resolve(insts[k].addressing.value, GuardLabels(s, insts[k]), s.offset).Known? {
      OperandStable(insts, k, s, maxMemory);
    }
  }

  /** The state pass 1 reaches after the first `k` instructions, from which it goes on. */
  lemma PrefixState(insts: seq<Instruction>, k: nat, maxMemory: int)
    requires k <= |insts| && Plan(insts, 0, Fresh, maxMemory).Ok?
    ensures Plan(insts[..k], 0, Fresh, maxMemory).Ok?
    ensures var s := Plan(insts[..k], 0, Fresh, maxMemory).value;
            |s.offsets| == k && |s.fits| == k && s.labels.Keys == LabelsBefore(insts, k) &&
            Plan(insts, k, s, maxMemory) == Plan(insts, 0, Fresh, maxMemory)
  {
    PlanSplit(insts, k, 0, Fresh, maxMemory);
    LabelsBeforePrefix(insts, k);
    PlanKeys(insts[..k], 0, Fresh, maxMemory);
  }

  lemma LabelsBeforePrefix(insts: seq<Instruction>, k: nat)
    requires k <= |insts|
    ensures LabelsBefore(insts[..k], 0) == {} && Fresh.labels.Keys == {}
    ensures LabelsBefore(insts[..k], k) == LabelsBefore(insts, k)
  {
    assert forall j :: 0 <= j < k ==> insts[..k][j] == insts[j];
  }

  // ---------------------------------------------------------------------------------
  // Regions

  /** Drops trailing regions that received no bytes, as both the region step of pass 2
      and the end of `assemble` do. */
  function Prune(codes: seq<Region>): (r: seq<Region>)
    ensures |r| <= |codes| && r == codes[..|r|]
    ensures r == [] || r[|r| - 1].bytes != []
    ensures forall k :: |r| <= k < |codes| ==> codes[k].bytes == []
  {
    if codes != [] && codes[|codes| - 1].bytes == [] then Prune(codes[..|codes| - 1]) else codes
  }

  /** The region step of `_assemble_guard`: prune, then open a region at `offset` when
      there is none or the last one does not end there. */
  function Open(codes: seq<Region>, offset: int): seq<Region> {
    var p := Prune(codes);
    if p == [] || End(p[|p| - 1]) != offset then p + [Region(offset, [])] else p
  }

  /** After the region step the last region ends at `offset`, so the bytes written
      next land there. */
  lemma OpenEnds(codes: seq<Region>, offset: int)
    ensures var r := Open(codes, offset); r != [] && End(r[|r| - 1]) == offset
  {
  }

  /** Appends bytes to the last region, the way every `gen_` handler writes its code. */
  function Extend(codes: seq<Region>, bytes: seq<int>): (r: seq<Region>)
    requires codes != []
  {
    codes[..|codes| - 1] + [Region(codes[|codes| - 1].start, codes[|codes| - 1].bytes + bytes)]
  }

  /** Region lists as pass 2 keeps them: only the last region may be empty, and no
      region starts where the one before it ends (such runs would have been merged). */
  predicate Separated(codes: seq<Region>) {
    (forall k :: 0 <= k < |codes| - 1 ==> codes[k].bytes != []) &&
    (forall k :: 0 < k < |codes| ==> codes[k].start != End(codes[k - 1]))
  }

  lemma PruneSeparated(codes: seq<Region>)
    requires Separated(codes)
    ensures Separated(Prune(codes)) && forall k :: 0 <= k < |Prune(codes)| ==> Prune(codes)[k].bytes != []
  {
    var p := Prune(codes);
    forall k | 0 <= k < |p|
      ensures p[k] == codes[k]
    {
    }
  }

  lemma OpenSeparated(codes: seq<Region>, offset: int)
    ensures Separated(codes) ==> Separated(Open(codes, offset))
  {
    if Separated(codes) {
      PruneSeparated(codes);
    }
  }

  lemma ExtendSeparated(codes: seq<Region>, bytes: seq<int>)
    requires codes != []
    ensures Separated(codes) ==> Separated(Extend(codes, bytes))
  {
    var r := Extend(codes, bytes);
    forall k | 0 <= k < |r| - 1
      ensures r[k] == codes[k]
    {
      assert r[..|r| - 1][k] == codes[..|codes| - 1][k];
    }
  }

  // ---------------------------------------------------------------------------------
  // Pass 2: encoding

  /** Modes whose operand is a single byte whatever the flag. */
  predicate ByteOperand(a: Addressing) {
    a.Immediate? || a.IndexedIndirect? || a.IndirectIndexed?
  }

  /** The value `_assemble_guard` hands on: the operand resolved with every label at
      the restored offset (an unbound label is now an error), refused when a one-byte
      mode gets more than 0xFF. */
  function Checked(a: Addressing, labels: map<string, int>, offset: int, line: int): (r: Result<int, AsmError>)
    requires a.HasOperand()
    ensures r.Ok? <==> Resolve(a.value, labels, offset).Known? &&
                       !(ByteOperand(a) && Resolve(a.value, labels, offset).value > ByteMax)
    ensures r.Ok? ==> r.value == Resolve(a.value, labels, offset).value
    ensures Resolve(a.value, labels, offset).MissingLabel? ==>
              r == Err(UnresolvedLabel(Resolve(a.value, labels, offset).name, line))
  {
    var v :- Evaluate(a.value, labels, offset, line);
    if ByteOperand(a) && v > ByteMax then Err(ValueTooLarge(v, line)) else Ok(v)
  }

  /** One instruction of pass 2: the region step, the checked value, then `gen_*`. */
  function Emit(codes: seq<Region>, op: Opcode, a: Addressing, offset: int, fit: bool,
                labels: map<string, int>, line: int): (r: Result<seq<Region>, AsmError>)
    requires Allowed(op, a)
    ensures r.Ok? <==> Checked(a, labels, offset, line).Ok?
  {
    AllowedHasOperand(op, a);
    var v :- Checked(a, labels, offset, line);
    OpenEnds(codes, offset);
    Ok(Extend(Open(codes, offset), Encode(op, a, v, fit)))
  }

  /** The bytes of an instruction land at its offset: the last region ends there
      before the write, and grows by exactly the size pass 1 reserved for it. */
  lemma EmitLands(codes: seq<Region>, op: Opcode, a: Addressing, offset: int, fit: bool,
                  labels: map<string, int>, line: int)
    requires Allowed(op, a) && Emit(codes, op, a, offset, fit, labels, line).Ok?
    ensures var r := Emit(codes, op, a, offset, fit, labels, line).value;
            var o := Open(codes, offset);
            o != [] && |r| == |o| && r[..|r| - 1] == o[..|o| - 1] &&
            End(o[|o| - 1]) == offset && r[|r| - 1].start == o[|o| - 1].start &&
            |r[|r| - 1].bytes| == |o[|o| - 1].bytes| + Size(op, a, fit) &&
            r[|r| - 1].bytes[..|o[|o| - 1].bytes|] == o[|o| - 1].bytes
  {
    AllowedHasOperand(op, a);
    var v := Checked(a, labels, offset, line).value;
    EncodeSize(op, a, v, fit);
    OpenEnds(codes, offset);
    var o := Open(codes, offset);
    var r := Extend(o, Encode(op, a, v, fit));
    assert r[|r| - 1].bytes[..|o[|o| - 1].bytes|] == o[|o| - 1].bytes;
  }

  /** Pass 2 keeps its region list separated. */
  lemma EmitSeparated(codes: seq<Region>, op: Opcode, a: Addressing, offset: int, fit: bool,
                      labels: map<string, int>, line: int)
    requires Allowed(op, a)
    ensures var r := Emit(codes, op, a, offset, fit, labels, line);
            r.Ok? && Separated(codes) ==> Separated(r.value)
  {
    AllowedHasOperand(op, a);
    if Checked(a, labels, offset, line).Ok? {
      var bytes := Encode(op, a, Checked(a, labels, offset, line).value, fit);
      OpenSeparated(codes, offset);
      OpenEnds(codes, offset);
      ExtendSeparated(Open(codes, offset), bytes);
    }
  }

  /** The second loop of `assemble` from instruction `i` on. */
  function Generate(insts: seq<Instruction>, p: Layout, i: nat, codes: seq<Region>): (r: Result<seq<Region>, AsmError>)
    requires i <= |insts| && |p.offsets| == |insts| && |p.fits| == |insts|
    requires forall k :: i <= k < |insts| ==> Accepted(insts[k])
    ensures r.Ok? && Separated(codes) ==> Separated(r.value)
    decreases |insts| - i
  {
    if i == |insts| then Ok(codes)
    else
      assert Accepted(insts[i]);
      EmitSeparated(codes, HandlerOf(insts[i].keyword).value, insts[i].addressing,
                    p.offsets[i], p.fits[i], p.labels, insts[i].line);
      var next :- Emit(codes, HandlerOf(insts[i].keyword).value, insts[i].addressing,
                       p.offsets[i], p.fits[i], p.labels, insts[i].line);
      Generate(insts, p, i + 1, next)
  }

  /** One iteration of the second loop. */
  lemma GenerateStep(insts: seq<Instruction>, p: Layout, i: nat, codes: seq<Region>)
    requires i < |insts| && |p.offsets| == |insts| && |p.fits| == |insts|
    requires forall k :: i <= k < |insts| ==> Accepted(insts[k])
    ensures Accepted(insts[i])
    ensures var e := Emit(codes, HandlerOf(insts[i].keyword).value, insts[i].addressing,
                          p.offsets[i], p.fits[i], p.labels, insts[i].line);
            Generate(insts, p, i, codes) == if e.Ok? then Generate(insts, p, i + 1, e.value) else Err(e.error)
  {
    assert Accepted(insts[i]);
  }

  /** The entry jump: `JMP code_start` written at the reset vector, after pruning. */
  function WithEntry(codes: seq<Region>, codeStart: int): (r: seq<Region>)
    ensures r != [] && End(r[|r| - 1]) == EntryVector + 3
    ensures var b := r[|r| - 1].bytes;
            |b| >= 3 && b[|b| - 3..] == [0x4C, LowOf(codeStart), HighOf(codeStart)]
    ensures Separated(codes) ==> Separated(r)
  {
    var bytes := Encode(Jmp, Address(Lit(Integer(true, codeStart))), codeStart, false);
    OpenEnds(codes, EntryVector);
    var r := Extend(Open(codes, EntryVector), bytes);
    OpenSeparated(codes, EntryVector);
    ExtendSeparated(Open(codes, EntryVector), bytes);
    assert r[|r| - 1].bytes[|r[|r| - 1].bytes| - 3..] == [0x4C, LowOf(codeStart), HighOf(codeStart)];
    r
  }

  /** The entry jump is the `gen_JMP` emission of `JMP code_start` at the reset vector:
      the literal operand always passes the check. */
  lemma EntryEmits(codes: seq<Region>, codeStart: int, labels: map<string, int>, line: int)
    ensures Emit(codes, Jmp, Address(Lit(Integer(true, codeStart))), EntryVector, false, labels, line) ==
            Ok(WithEntry(codes, codeStart))
  {
    assert Checked(Address(Lit(Integer(true, codeStart))), labels, EntryVector, line) == Ok(codeStart);
  }

  /** `assemble` on an instruction list: pass 1, pass 2, the final pruning and, when
      asked for, the entry jump. */
  function AssembleSpec(insts: seq<Instruction>, maxMemory: int, addEntry: bool): Result<seq<Region>, AsmError> {
    var p :- Plan(insts, 0, Fresh, maxMemory);
    var codes :- Generate(insts, p, 0, []);
    var pruned := Prune(codes);
    Ok(if addEntry then WithEntry(pruned, p.codeStart) else pruned)
  }

  /** `AssembleSpec` one pass at a time: the first error of pass 1, else the first
      error of pass 2, else the pruned regions with the optional entry jump. */
  lemma AssembleSpecSteps(insts: seq<Instruction>, maxMemory: int, addEntry: bool)
    ensures Plan(insts, 0, Fresh, maxMemory).Err? ==>
              AssembleSpec(insts, maxMemory, addEntry) == Err(Plan(insts, 0, Fresh, maxMemory).error)
    ensures Plan(insts, 0, Fresh, maxMemory).Ok? ==>
              var p := Plan(insts, 0, Fresh, maxMemory).value;
              var g := Generate(insts, p, 0, []);
              AssembleSpec(insts, maxMemory, addEntry) ==
                if g.Err? then Err(g.error)
                else Ok(if addEntry then WithEntry(Prune(g.value), p.codeStart) else Prune(g.value))
  {
  }

  /** The regions `assemble` returns are never empty and never run into each other;
      with the entry jump, the last region ends with `JMP code_start` at 0xFFFC. */
  lemma AssembleRegions(insts: seq<Instruction>, maxMemory: int, addEntry: bool)
    requires AssembleSpec(insts, maxMemory, addEntry).Ok?
    ensures var r := AssembleSpec(insts, maxMemory, addEntry).value;
            Separated(r) && forall k :: 0 <= k < |r| ==> r[k].bytes != []
    ensures addEntry ==>
              var r := AssembleSpec(insts, maxMemory, addEntry).value;
              var cs := Plan(insts, 0, Fresh, maxMemory).value.codeStart;
              r != [] && End(r[|r| - 1]) == EntryVector + 3 &&
              r[|r| - 1].bytes[|r[|r| - 1].bytes| - 3..] == [0x4C, LowOf(cs), HighOf(cs)]
  {
    var p := Plan(insts, 0, Fresh, maxMemory).value;
    var codes := Generate(insts, p, 0, []).value;
    PruneSeparated(codes);
    if addEntry {
      var r := WithEntry(Prune(codes), p.codeStart);
      assert r[|r| - 1].bytes != [];
    }
  }

  // ---------------------------------------------------------------------------------
  // Text in, regions out

  /** What `assemble` can raise on source text: a lexical or syntax error from the
      parser, or an assembly error. */
  datatype Failure = Parsing(parseError: ParseError) | Assembling(asmError: AsmError)

  /** `assemble` on source text: the text is tokenized and parsed first. */
  function AssembleTextSpec(src: string, maxMemory: int, addEntry: bool): Result<seq<Region>, Failure> {
    match Parse(Lex(src, 0))
    case Err(e) => Err(Parsing(e))
    case Ok(insts) =>
      match AssembleSpec(insts, maxMemory, addEntry)
      case Err(e) => Err(Assembling(e))
      case Ok(regions) => Ok(regions)
  }

  // ---------------------------------------------------------------------------------
  // The assembler object

  /** `Assembler`: the configuration, fixed at construction, and the state both passes
      update in place. */
  class Assembler {
    const maxMemory: int
    const programEntry: int
    var codeStart: int
    var codeOffset: int
    var lineNumber: int
    var codeOffsets: seq<int>
    var fitZeroPages: seq<bool>
    var labelOffsets: map<string, int>
    var codes: seq<Region>

    /** The pass-1 fields as a value. */
    function Snapshot(): Layout
      reads this
    {
      Layout(codeOffset, codeOffsets, fitZeroPages, labelOffsets, codeStart)
    }

    /** `__init__`: the memory ceiling and the (unused) entry address are kept; the
        state is as `reset` leaves it. */
    constructor(maxMemory: int, programEntry: int)
      ensures this.maxMemory == maxMemory && this.programEntry == programEntry
      ensures Snapshot() == Fresh && lineNumber == -1 && codes == []
    {
      this.maxMemory := maxMemory;
      this.programEntry := programEntry;
      codeStart := -1;
      codeOffset := 0;
      lineNumber := -1;
      codeOffsets := [];
      fitZeroPages := [];
      labelOffsets := map[];
      codes := [];
    }

    /** `reset`: clears every piece of per-call state. */
    method Reset()
      modifies this
      ensures Snapshot() == Fresh && lineNumber == -1 && codes == []
    {
      codeStart := -1;
      codeOffset := 0;
      lineNumber := -1;
      codeOffsets := [];
      fitZeroPages := [];
      labelOffsets := map[];
      codes := [];
    }

    /** `_addressing_guard`: refuses a mode the handler does not take; otherwise appends
        the zero-page flag, raised when an address or indexed operand resolves now to at
        most 0xFF. Only the flags change. */
    method AddressingGuard(op: Opcode, a: Addressing) returns (err: Option<AsmError>)
      modifies this`fitZeroPages
      ensures var g := Guard(op, a, labelOffsets, codeOffset, lineNumber);
              (err.None? <==> g.Ok?) && (g.Err? ==> err == Some(g.error)) &&
              (g.Ok? ==> fitZeroPages == old(fitZeroPages) + [g.value])
      ensures !Allowed(op, a) ==> fitZeroPages == old(fitZeroPages)
      ensures Allowed(op, a) && err.Some? ==> fitZeroPages == old(fitZeroPages) + [false]
    {
      if !Allowed(op, a) {
        return Some(AddressingNotAllowed(op, lineNumber));
      }
      fitZeroPages := fitZeroPages + [false];
      if Sized(a) {
        match Resolve(a.value, labelOffsets, codeOffset)
        case Known(v) =>
          if v <= ByteMax {
            fitZeroPages := fitZeroPages[|fitZeroPages| - 1 := true];
          }
        case MissingLabel(_) =>
        case ZeroDivisor =>
          return Some(DivisionByZero(lineNumber));
      }
      return None;
    }

    /** `pre_ORG`, `pre_JMP` and `pre_LDA`, after the guard: ORG moves the offset to its
        operand (a label that is still unbound is an error here) and takes no room; the
        others leave the offset and return their size for the flag just appended. */
    method Pre(op: Opcode, a: Addressing) returns (r: Result<nat, AsmError>)
      requires Allowed(op, a) && fitZeroPages != []
      modifies this`codeOffset
      ensures op != Org ==> r == Ok(Size(op, a, fitZeroPages[|fitZeroPages| - 1])) && codeOffset == old(codeOffset)
      ensures op == Org ==>
                var v := Evaluate(a.value, labelOffsets, old(codeOffset), lineNumber);
                (v.Ok? ==> r == Ok(0) && codeOffset == v.value) &&
                (v.Err? ==> r == Err(v.error) && codeOffset == old(codeOffset))
    {
      if op == Org {
        var v := Evaluate(a.value, labelOffsets, codeOffset, lineNumber);
        if v.Err? {
          return Err(v.error);
        }
        codeOffset := v.value;
        return Ok(0);
      }
      return Ok(Size(op, a, fitZeroPages[|fitZeroPages| - 1]));
    }

    /** One iteration of the first loop of `assemble`: the new state is the layout step
        of `PlanStep`, or the step's error is returned. */
    method Prepare(inst: Instruction) returns (err: Option<AsmError>)
      modifies this`lineNumber, this`labelOffsets, this`fitZeroPages, this`codeOffset,
               this`codeOffsets, this`codeStart
      ensures var r := PlanStep(old(Snapshot()), inst, maxMemory);
              (err.None? <==> r.Ok?) && (r.Ok? ==> Snapshot() == r.value) && (r.Err? ==> err == Some(r.error))
      ensures lineNumber == inst.line
    {
      lineNumber := inst.line;
      if inst.labelName.Some? && inst.keyword != "ORG" {
        labelOffsets := labelOffsets[inst.labelName.value := codeOffset];
      }
      var handler := HandlerOf(inst.keyword);
      if handler.None? {
        return Some(NoHandler(inst.keyword, inst.line));
      }
      var op := handler.value;
      err := AddressingGuard(op, inst.addressing);
      if err.Some? {
        return;
      }
      var size := Pre(op, inst.addressing);
      if size.Err? {
        return Some(size.error);
      }
      if inst.labelName.Some? && inst.keyword == "ORG" {
        labelOffsets := labelOffsets[inst.labelName.value := codeOffset];
      }
      HandlersAreMnemonics(inst.keyword);
      if codeStart == -1 && IsMnemonic(inst.keyword) {
        codeStart := codeOffset;
      }
      codeOffsets := codeOffsets + [codeOffset];
      codeOffset := codeOffset + size.value;
      if codeOffset >= maxMemory {
        return Some(ExceedsMemory(maxMemory, lineNumber));
      }
      return None;
    }

    /** The `while` loop that deletes trailing empty regions. */
    method PruneTrailing()
      modifies this`codes
      ensures codes == Prune(old(codes))
    {
      var c := codes;
      while c != [] && c[|c| - 1].bytes == []
        invariant Prune(c) == Prune(codes)
        decreases |c|
      {
        c := c[..|c| - 1];
      }
      codes := c;
    }

    /** `_assemble_guard`: prunes, opens a region at the current offset unless the last
        one ends there, and resolves the operand with the one-byte check. */
    method AssembleGuard(a: Addressing) returns (r: Result<int, AsmError>)
      requires a.HasOperand()
      modifies this`codes
      ensures codes == Open(old(codes), codeOffset)
      ensures r == Checked(a, labelOffsets, codeOffset, lineNumber)
    {
      PruneTrailing();
      if codes == [] || codeOffset != End(codes[|codes| - 1]) {
        codes := codes + [Region(codeOffset, [])];
      }
      var v := Evaluate(a.value, labelOffsets, codeOffset, lineNumber);
      if v.Err? {
        return Err(v.error);
      }
      if ByteOperand(a) && v.value > ByteMax {
        return Err(ValueTooLarge(v.value, lineNumber));
      }
      return Ok(v.value);
    }

    /** `gen_ORG`, `gen_JMP` and `gen_LDA` behind `_assemble_guard`: the encoding is
        appended to the last region. `index` selects the instruction's zero-page flag;
        the entry jump has none, and JMP reads no flag. */
    method Gen(index: Option<nat>, op: Opcode, a: Addressing) returns (err: Option<AsmError>)
      requires Allowed(op, a)
      requires index.Some? ==> index.value < |fitZeroPages|
      modifies this`codes
      ensures var fit := if index.Some? then fitZeroPages[index.value] else false;
              var r := Emit(old(codes), op, a, codeOffset, fit, labelOffsets, lineNumber);
              (err.None? <==> r.Ok?) && (r.Ok? ==> codes == r.value) && (r.Err? ==> err == Some(r.error))
    {
      AllowedHasOperand(op, a);
      var v := AssembleGuard(a);
      if v.Err? {
        return Some(v.error);
      }
      var fit := if index.Some? then fitZeroPages[index.value] else false;
      OpenEnds(old(codes), codeOffset);
      codes := Extend(codes, Encode(op, a, v.value, fit));
      return None;
    }

    /** The first loop of `assemble`: every instruction in turn through `Prepare`. The
        new state is the layout `Plan` computes from the old one, or its error is
        returned. */
    method LayOut(insts: seq<Instruction>) returns (err: Option<AsmError>)
      modifies this`lineNumber, this`labelOffsets, this`fitZeroPages, this`codeOffset,
               this`codeOffsets, this`codeStart
      ensures var r := Plan(insts, 0, old(Snapshot()), maxMemory);
              (err.None? <==> r.Ok?) && (r.Ok? ==> Snapshot() == r.value) && (r.Err? ==> err == Some(r.error))
      ensures err.None? ==> lineNumber == if insts == [] then old(lineNumber) else insts[|insts| - 1].line
    {
      var i := 0;
      while i < |insts|
        invariant i <= |insts|
        invariant Plan(insts, 0, old(Snapshot()), maxMemory) == Plan(insts, i, Snapshot(), maxMemory)
        invariant lineNumber == if i == 0 then old(lineNumber) else insts[i - 1].line
      {
        ghost var before := Snapshot();
        err := Prepare(insts[i]);
        if err.Some? {
          assert Plan(insts, i, before, maxMemory) == Err(err.value);
          return;
        }
        assert Plan(insts, i, before, maxMemory) == Plan(insts, i + 1, Snapshot(), maxMemory);
        i := i + 1;
      }
      return None;
    }

    /** One iteration of the second loop of `assemble`: instruction `i` is encoded at
        the offset and with the zero-page flag pass 1 recorded for it. */
    method GenAt(insts: seq<Instruction>, ghost p: Layout, i: nat) returns (err: Option<AsmError>)
      requires i < |insts| && |p.offsets| == |insts| && |p.fits| == |insts|
      requires forall k :: i <= k < |insts| ==> Accepted(insts[k])
      requires codeOffsets == p.offsets && fitZeroPages == p.fits && labelOffsets == p.labels
      modifies this`lineNumber, this`codeOffset, this`codes
      ensures codeOffset == p.offsets[i] && lineNumber == insts[i].line
      ensures Generate(insts, p, i, old(codes)) ==
              if err.None? then Generate(insts, p, i + 1, codes) else Err(err.value)
    {
      GenerateStep(insts, p, i, codes);
      lineNumber := insts[i].line;
      codeOffset := codeOffsets[i];
      err := Gen(Some(i), HandlerOf(insts[i].keyword).value, insts[i].addressing);
    }

    /** The second loop of `assemble`. The new regions are those `Generate` computes
        from the old ones, or its error is returned. */
    method Emission(insts: seq<Instruction>, ghost p: Layout) returns (err: Option<AsmError>)
      requires |p.offsets| == |insts| && |p.fits| == |insts|
      requires forall k :: 0 <= k < |insts| ==> Accepted(insts[k])
      requires codeOffsets == p.offsets && fitZeroPages == p.fits && labelOffsets == p.labels
      modifies this`lineNumber, this`codeOffset, this`codes
      ensures var r := Generate(insts, p, 0, old(codes));
              (err.None? <==> r.Ok?) && (r.Ok? ==> codes == r.value) && (r.Err? ==> err == Some(r.error))
      ensures err.None? && insts != [] ==> codeOffset == p.offsets[|insts| - 1] && lineNumber == insts[|insts| - 1].line
      ensures insts == [] ==> codeOffset == old(codeOffset) && lineNumber == old(lineNumber)
    {
      var i := 0;
      while i < |insts|
        invariant i <= |insts|
        invariant Generate(insts, p, 0, old(codes)) == Generate(insts, p, i, codes)
        invariant i > 0 ==> codeOffset == p.offsets[i - 1] && lineNumber == insts[i - 1].line
        invariant i == 0 ==> codeOffset == old(codeOffset) && lineNumber == old(lineNumber)
      {
        err := GenAt(insts, p, i);
        if err.Some? {
          return;
        }
        i := i + 1;
      }
      return None;
    }

    /** `reset`, the layout loop, the encoding loop and the final pruning of
        `assemble`: on success the fields hold the layout `Plan` computes and the pruned
        regions `Generate` computes, and otherwise the first error is returned. */
    method Passes(insts: seq<Instruction>) returns (err: Option<AsmError>)
      modifies this
      ensures var pl := Plan(insts, 0, Fresh, maxMemory);
              pl.Err? ==> err == Some(pl.error)
      ensures var pl := Plan(insts, 0, Fresh, maxMemory);
              pl.Ok? ==>
                var p := pl.value;
                var g := Generate(insts, p, 0, []);
                (err.None? <==> g.Ok?) && (g.Err? ==> err == Some(g.error)) &&
                (g.Ok? ==>
                   codes == Prune(g.value) && codeOffsets == p.offsets && fitZeroPages == p.fits &&
                   labelOffsets == p.labels && codeStart == p.codeStart &&
                   codeOffset == (if insts == [] then 0 else p.offsets[|insts| - 1]) &&
                   lineNumber == (if insts == [] then -1 else insts[|insts| - 1].line))
    {
      Reset();
      err := LayOut(insts);
      if err.Some? {
        return;
      }
      ghost var p := Snapshot();
      assert codeOffsets == p.offsets && fitZeroPages == p.fits && labelOffsets == p.labels;
      err := Emission(insts, p);
      if err.Some? {
        return;
      }
      PruneTrailing();
    }

    /** `assemble` on an instruction list: both passes, the final pruning and the
        optional entry jump. The result is `AssembleSpec`; on success the fields hold
        the layout pass 1 computed and the regions returned. */
    method Assemble(insts: seq<Instruction>, addEntry: bool) returns (r: Result<seq<Region>, AsmError>)
      modifies this
      ensures r == AssembleSpec(insts, maxMemory, addEntry)
      ensures r.Ok? ==>
                var p := Plan(insts, 0, Fresh, maxMemory).value;
                codes == r.value && codeOffsets == p.offsets && fitZeroPages == p.fits &&
                labelOffsets == p.labels && codeStart == p.codeStart &&
                codeOffset == (if addEntry then EntryVector else if insts == [] then 0 else p.offsets[|insts| - 1]) &&
                lineNumber == (if insts == [] then -1 else insts[|insts| - 1].line)
    {
      AssembleSpecSteps(insts, maxMemory, addEntry);
      var err := Passes(insts);
      if err.Some? {
        return Err(err.value);
      }
      if addEntry {
        AddEntry();
      }
      return Ok(codes);
    }

    /** The entry jump `assemble` appends on request: a `JMP` to the start of the code,
        generated at the reset vector. */
    method AddEntry()
      modifies this`codes, this`codeOffset
      ensures codeOffset == EntryVector && codes == WithEntry(old(codes), codeStart)
    {
      codeOffset := EntryVector;
      EntryEmits(codes, codeStart, labelOffsets, lineNumber);
      var _ := Gen(None, Jmp, Address(Lit(Integer(true, codeStart))));
    }

    /** `assemble` on source text: tokenize and parse (a parse error leaves the object
        untouched), then assemble the instructions. */
    method AssembleText(src: string, addEntry: bool) returns (r: Result<seq<Region>, Failure>)
      modifies this
      ensures r == AssembleTextSpec(src, maxMemory, addEntry)
      ensures r.Err? && r.error.Parsing? ==> unchanged(this)
    {
      var tokens := Tokenize(src);
      var parsed := Parse(tokens);
      if parsed.Err? {
        return Err(Parsing(parsed.error));
      }
      var assembled := Assemble(parsed.value, addEntry);
      if assembled.Err? {
        return Err(Assembling(assembled.error));
      }
      return Ok(assembled.value);
    }
  }
}
