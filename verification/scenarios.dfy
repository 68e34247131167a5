/** Small programs run through the assembler model, one step at a time. */
module Scenarios {
  import opened Integers
  import opened Outcomes
  import opened Syntax
  import opened Resolution
  import opened Assembly

  /** `LDA $35`: the address fits the zero page, so the two-byte form A5 is chosen. */
  lemma ZeroPageLoad(insts: seq<Instruction>)
    requires insts == [Instruction(None, "LDA", Address(Lit(Integer(false, 0x35))), 1)]
    ensures AssembleSpec(insts, DefaultMaxMemory, false) == Ok([Region(0, [0xA5, 0x35])])
  {
    ZeroPageLayout(insts);
    ZeroPageCode(insts, Plan(insts, 0, Fresh, DefaultMaxMemory).value);
    var c := [Region(0, [0xA5, 0x35])];
    assert Prune(c) == c;
  }

  /** Pass 1 on `LDA $35`: the operand is flagged as fitting, and the load takes two
      bytes at 0. */
  lemma ZeroPageLayout(insts: seq<Instruction>)
    requires insts == [Instruction(None, "LDA", Address(Lit(Integer(false, 0x35))), 1)]
    ensures Plan(insts, 0, Fresh, DefaultMaxMemory) == Ok(Layout(2, [0], [true], map[], 0))
  {
    var a := insts[0].addressing;
    assert HandlerOf("LDA") == Some(Lda);
    assert Resolve(a.value, map[], 0) == Known(0x35);
    assert Guard(Lda, a, map[], 0, 1) == Ok(true);
    assert Size(Lda, a, true) == 2;
    assert Fresh.offsets + [0] == [0] && Fresh.fits + [true] == [true];
    var p := Layout(2, [0], [true], map[], 0);
    assert PlanStep(Fresh, insts[0], DefaultMaxMemory) == Ok(p);
    assert Plan(insts, 1, p, DefaultMaxMemory) == Ok(p);
  }

  /** Pass 2 on `LDA $35` with that layout writes A5 35 into a fresh region at 0. */
  lemma ZeroPageCode(insts: seq<Instruction>, p: Layout)
    requires insts == [Instruction(None, "LDA", Address(Lit(Integer(false, 0x35))), 1)]
    requires p == Layout(2, [0], [true], map[], 0)
    ensures Generate(insts, p, 0, []) == Ok([Region(0, [0xA5, 0x35])])
  {
    var a := insts[0].addressing;
    var c := [Region(0, [0xA5, 0x35])];
    assert HandlerOf("LDA") == Some(Lda);
    GenerateStep(insts, p, 0, []);
    assert Checked(a, map[], 0, 1) == Ok(0x35);
    EmitChecked([], Lda, a, 0, true, map[], 1, 0x35);
    assert Encode(Lda, a, 0x35, true) == [0xA5, 0x35];
    WriteFresh(0, [0xA5, 0x35]);
    assert Generate(insts, p, 1, c) == Ok(c);
  }

  /** The program `JMP end` / `end: LDA #1`. */
  function ForwardJumpProgram(): seq<Instruction> {
    [Instruction(None, "JMP", Address(LabelRef("end")), 1),
     Instruction(Some("end"), "LDA", Immediate(Lit(Integer(false, 1))), 2)]
  }

  /** Pass 1 on it: the label is unknown when the jump is laid out, so the jump takes
      three bytes, and `end` is bound to 3. */
  lemma ForwardJumpLayout(insts: seq<Instruction>)
    requires insts == ForwardJumpProgram()
    ensures Plan(insts, 0, Fresh, DefaultMaxMemory) == Ok(Layout(5, [0, 3], [false, false], map["end" := 3], 0))
  {
    var jump, load := insts[0].addressing, insts[1].addressing;
    var labels := map["end" := 3];
    assert HandlerOf("JMP") == Some(Jmp) && HandlerOf("LDA") == Some(Lda);
    assert Guard(Jmp, jump, map[], 0, 1) == Ok(false);
    assert Fresh.offsets + [0] == [0] && Fresh.fits + [false] == [false];
    var s1 := Layout(3, [0], [false], map[], 0);
    assert PlanStep(Fresh, insts[0], DefaultMaxMemory) == Ok(s1);
    assert Guard(Lda, load, labels, 3, 2) == Ok(false);
    var p := Layout(5, [0, 3], [false, false], labels, 0);
    assert s1.labels["end" := 3] == labels;
    assert s1.offsets + [3] == [0, 3] && s1.fits + [false] == [false, false];
    assert PlanStep(s1, insts[1], DefaultMaxMemory) == Ok(p);
    assert Plan(insts, 2, p, DefaultMaxMemory) == Ok(p);
  }

  /** `assemble` on it: the jump is resolved in pass 2 to the offset 3, where the load
      was laid out, and the two instructions share one region. */
  lemma ForwardJump(insts: seq<Instruction>)
    requires insts == ForwardJumpProgram()
    ensures AssembleSpec(insts, DefaultMaxMemory, false) == Ok([Region(0, [0x4C, 3, 0, 0xA9, 1])])
  {
    ForwardJumpLayout(insts);
    ForwardJumpCode(insts, Plan(insts, 0, Fresh, DefaultMaxMemory).value);
    var c2 := [Region(0, [0x4C, 3, 0, 0xA9, 1])];
    assert Prune(c2) == c2;
  }

  /** Pass 2 on it, with the layout of `ForwardJumpLayout`. */
  lemma ForwardJumpCode(insts: seq<Instruction>, p: Layout)
    requires insts == ForwardJumpProgram()
    requires p == Layout(5, [0, 3], [false, false], map["end" := 3], 0)
    ensures Generate(insts, p, 0, []) == Ok([Region(0, [0x4C, 3, 0, 0xA9, 1])])
  {
    var c1, c2 := [Region(0, [0x4C, 3, 0])], [Region(0, [0x4C, 3, 0, 0xA9, 1])];
    assert HandlerOf("JMP") == Some(Jmp) && HandlerOf("LDA") == Some(Lda);
    assert Accepted(insts[0]) && Accepted(insts[1]);
    GenerateStep(insts, p, 0, []);
    JumpToEnd(insts[0].addressing, p.labels);
    GenerateStep(insts, p, 1, c1);
    LoadAfterJump(insts[1].addressing, p.labels, c1);
    assert Generate(insts, p, 2, c2) == Ok(c2);
  }

  /** `JMP end` at 0 opens a region and writes 4C 03 00. */
  lemma JumpToEnd(jump: Addressing, labels: map<string, int>)
    requires jump == Address(LabelRef("end")) && labels == map["end" := 3]
    ensures Emit([], Jmp, jump, 0, false, labels, 1) == Ok([Region(0, [0x4C, 3, 0])])
  {
    assert Checked(jump, labels, 0, 1) == Ok(3) by {
      assert Resolve(jump.value, labels, 0) == Known(3);
    }
    EmitChecked([], Jmp, jump, 0, false, labels, 1, 3);
    assert Encode(Jmp, jump, 3, false) == [0x4C, 3, 0];
    WriteFresh(0, [0x4C, 3, 0]);
  }

  /** `LDA #1` at 3 continues the same region with A9 01. */
  lemma LoadAfterJump(load: Addressing, labels: map<string, int>, c1: seq<Region>)
    requires load == Immediate(Lit(Integer(false, 1))) && labels == map["end" := 3]
    requires c1 == [Region(0, [0x4C, 3, 0])]
    ensures Emit(c1, Lda, load, 3, false, labels, 2) == Ok([Region(0, [0x4C, 3, 0, 0xA9, 1])])
  {
    assert Checked(load, labels, 3, 2) == Ok(1);
    EmitChecked(c1, Lda, load, 3, false, labels, 2, 1);
    assert Encode(Lda, load, 1, false) == [0xA9, 1];
    WriteContinues(c1[0], 3, [0xA9, 1]);
    assert [0x4C, 3, 0] + [0xA9, 1] == [0x4C, 3, 0, 0xA9, 1];
  }

  /** The program `LDA $10,Y` / `LDA #1`: a Y-indexed load whose operand fits the zero
      page, followed by another instruction. */
  function YIndexedProgram(): seq<Instruction> {
    [Instruction(None, "LDA", Indexed(Lit(Integer(false, 0x10)), Y), 1),
     Instruction(None, "LDA", Immediate(Lit(Integer(false, 1))), 2)]
  }

  /** Pass 1 on it with the corrected size: the Y-indexed load is flagged as fitting but
      still takes three bytes, so the next load is laid out at 3. */
  lemma YIndexedLayout(insts: seq<Instruction>)
    requires insts == YIndexedProgram()
    ensures Plan(insts, 0, Fresh, DefaultMaxMemory) == Ok(Layout(5, [0, 3], [true, false], map[], 0))
  {
    var indexed, load := insts[0].addressing, insts[1].addressing;
    assert HandlerOf("LDA") == Some(Lda);
    assert Resolve(indexed.value, map[], 0) == Known(0x10);
    assert Guard(Lda, indexed, map[], 0, 1) == Ok(true);
    assert Size(Lda, indexed, true) == 3;
    assert Fresh.offsets + [0] == [0] && Fresh.fits + [true] == [true];
    var s1 := Layout(3, [0], [true], map[], 0);
    assert PlanStep(Fresh, insts[0], DefaultMaxMemory) == Ok(s1);
    assert Guard(Lda, load, map[], 3, 2) == Ok(false);
    assert s1.offsets + [3] == [0, 3] && s1.fits + [false] == [true, false];
    var p := Layout(5, [0, 3], [true, false], map[], 0);
    assert PlanStep(s1, insts[1], DefaultMaxMemory) == Ok(p);
    assert Plan(insts, 2, p, DefaultMaxMemory) == Ok(p);
  }

  /** Pass 2 on it with the corrected layout: B9 10 00 A9 01 in one region at 0. */
  lemma YIndexedCode(insts: seq<Instruction>, p: Layout)
    requires insts == YIndexedProgram()
    requires p == Layout(5, [0, 3], [true, false], map[], 0)
    ensures Generate(insts, p, 0, []) == Ok([Region(0, [0xB9, 0x10, 0, 0xA9, 1])])
  {
    var c1, c2 := [Region(0, [0xB9, 0x10, 0])], [Region(0, [0xB9, 0x10, 0, 0xA9, 1])];
    assert HandlerOf("LDA") == Some(Lda);
    assert Accepted(insts[0]) && Accepted(insts[1]);
    GenerateStep(insts, p, 0, []);
    IndexedLoad(insts[0].addressing);
    GenerateStep(insts, p, 1, c1);
    ImmediateAfter(insts[1].addressing, c1, 3, [Region(0, [0xB9, 0x10, 0, 0xA9, 1])]);
    assert Generate(insts, p, 2, c2) == Ok(c2);
  }

  /** `assemble` on it: one contiguous region, the load after the Y-indexed one intact. */
  lemma YIndexedLoad(insts: seq<Instruction>)
    requires insts == YIndexedProgram()
    ensures AssembleSpec(insts, DefaultMaxMemory, false) == Ok([Region(0, [0xB9, 0x10, 0, 0xA9, 1])])
  {
    YIndexedLayout(insts);
    YIndexedCode(insts, Plan(insts, 0, Fresh, DefaultMaxMemory).value);
    var c := [Region(0, [0xB9, 0x10, 0, 0xA9, 1])];
    assert Prune(c) == c;
  }

  /** Pass 2 on it with the layout the source's pass 1 computes, where `pre_LDA`
      reserves two bytes for the Y-indexed load: the next load is written at 2, inside
      the three bytes already written, so the output holds two overlapping regions. */
  lemma YIndexedAsWritten(insts: seq<Instruction>, p: Layout)
    requires insts == YIndexedProgram()
    requires p == Layout(4, [0, SizeAsWritten(Lda, insts[0].addressing, true)], [true, false], map[], 0)
    ensures Generate(insts, p, 0, []) == Ok([Region(0, [0xB9, 0x10, 0]), Region(2, [0xA9, 1])])
    ensures var r := Generate(insts, p, 0, []).value; r[1].start < End(r[0])
  {
    var c1, c2 := [Region(0, [0xB9, 0x10, 0])], [Region(0, [0xB9, 0x10, 0]), Region(2, [0xA9, 1])];
    assert p.offsets == [0, 2];
    assert HandlerOf("LDA") == Some(Lda);
    assert Accepted(insts[0]) && Accepted(insts[1]);
    GenerateStep(insts, p, 0, []);
    IndexedLoad(insts[0].addressing);
    GenerateStep(insts, p, 1, c1);
    ImmediateAfter(insts[1].addressing, c1, 2, c2);
    assert Generate(insts, p, 2, c2) == Ok(c2);
  }

  /** `LDA $10,Y` at 0 with the flag up opens a region and writes B9 10 00. */
  lemma IndexedLoad(indexed: Addressing)
    requires indexed == Indexed(Lit(Integer(false, 0x10)), Y)
    ensures Emit([], Lda, indexed, 0, true, map[], 1) == Ok([Region(0, [0xB9, 0x10, 0])])
  {
    assert Checked(indexed, map[], 0, 1) == Ok(0x10);
    EmitChecked([], Lda, indexed, 0, true, map[], 1, 0x10);
    assert Encode(Lda, indexed, 0x10, true) == [0xB9, 0x10, 0];
    WriteFresh(0, [0xB9, 0x10, 0]);
  }

  /** `LDA #1` after it: at 3 it continues the region, anywhere else it opens a new one. */
  lemma ImmediateAfter(load: Addressing, c1: seq<Region>, offset: int, c2: seq<Region>)
    requires load == Immediate(Lit(Integer(false, 1))) && c1 == [Region(0, [0xB9, 0x10, 0])]
    requires offset == 3 ==> c2 == [Region(0, [0xB9, 0x10, 0, 0xA9, 1])]
    requires offset != 3 ==> c2 == [Region(0, [0xB9, 0x10, 0]), Region(offset, [0xA9, 1])]
    ensures Emit(c1, Lda, load, offset, false, map[], 2) == Ok(c2)
  {
    assert Checked(load, map[], offset, 2) == Ok(1);
    EmitChecked(c1, Lda, load, offset, false, map[], 2, 1);
    assert Encode(Lda, load, 1, false) == [0xA9, 1];
    if offset == 3 {
      WriteContinues(c1[0], 3, [0xA9, 1]);
      assert [0xB9, 0x10, 0] + [0xA9, 1] == [0xB9, 0x10, 0, 0xA9, 1];
    } else {
      WriteApart(c1[0], offset, [0xA9, 1]);
    }
  }

  /** Emission once the operand check has produced `v`: the region step, then the bytes
      of `v`. */
  lemma EmitChecked(codes: seq<Region>, op: Opcode, a: Addressing, offset: int, fit: bool,
                    labels: map<string, int>, line: int, v: int)
    requires Allowed(op, a) && Checked(a, labels, offset, line) == Ok(v)
    ensures Emit(codes, op, a, offset, fit, labels, line) == Ok(Extend(Open(codes, offset), Encode(op, a, v, fit)))
  {
  }

  /** The first write opens a region at the offset and holds exactly the bytes. */
  lemma WriteFresh(offset: int, bytes: seq<int>)
    ensures Extend(Open([], offset), bytes) == [Region(offset, bytes)]
  {
    var empty: seq<int> := [];
    assert Open([], offset) == [Region(offset, empty)];
    assert empty + bytes == bytes;
    assert [Region(offset, empty)][..0] == [];
  }

  /** A write where the only region ends continues that region. */
  lemma WriteContinues(r: Region, offset: int, bytes: seq<int>)
    requires r.bytes != [] && End(r) == offset
    ensures Extend(Open([r], offset), bytes) == [Region(r.start, r.bytes + bytes)]
  {
    assert Prune([r]) == [r];
    assert [r][..0] == [];
  }

  /** A write where the only region does not end starts a region of its own. */
  lemma WriteApart(r: Region, offset: int, bytes: seq<int>)
    requires r.bytes != [] && End(r) != offset
    ensures Extend(Open([r], offset), bytes) == [r, Region(offset, bytes)]
  {
    var empty: seq<int> := [];
    assert Prune([r]) == [r];
    assert Open([r], offset) == [r, Region(offset, empty)];
    assert empty + bytes == bytes;
  }
}
