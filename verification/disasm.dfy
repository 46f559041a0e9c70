/** The package decoder (f2mc8dasm/disasm.py): turns the bytes at an address
    of a ROM image into a structured instruction. All address arithmetic is
    modulo 0x10000, and the bit-branch form keeps its tested direct address
    apart from its branch target. */
module Disasm {
  import opened Tables
  import opened Support

  /** A decoded instruction. The derived fields are None unless the
      addressing mode sets them, which keeps "absent" apart from zero. */
  datatype Instruction = Instruction(
    template: string,               // listing text with placeholders for the operands
    mode: AddressMode,
    flow: FlowType,
    opcode: Byte,
    operands: seq<Byte>,            // the bytes after the opcode, in memory order
    address: Option<int>,           // a first-page, absolute or branch-target address
    bittestAddress: Option<int>,    // the first-page byte a bit branch examines
    immediate: Option<int>,         // literal data, one or two bytes wide
    ixdOffset: Option<int>,         // unsigned byte added to the IX register
    bit: Option<int>,               // which of the eight bits a bit operation uses
    callv: Option<int>,             // which of the eight call vectors is used
    register: Option<int>)          // which of the eight general registers is used
  {
    /** `len(inst)`: the opcode byte plus the operand bytes. */
    function Length(): (n: nat)
      ensures n == |AllBytes()|
    {
      1 + |operands|
    }

    /** The opcode followed by the operands. */
    function AllBytes(): (r: seq<Byte>)
      ensures |r| == 1 + |operands| && r[0] == opcode && r[1..] == operands
    {
      [opcode] + operands
    }

    /** True for movw sp/ix/ep, #IMW: the template names a pointer register. */
    function StoresImmediateWordInPointer(): (b: bool)
      ensures b ==> mode == ImmediateWord
    {
      mode == ImmediateWord &&
      (Contains(template, "ep") || Contains(template, "ix") || Contains(template, "sp"))
    }

    /** True for movw a, #IMW: the template names the accumulator. */
    function StoresImmediateWordInA(): (b: bool)
      ensures b ==> mode == ImmediateWord
    {
      mode == ImmediateWord && Contains(template, "a")
    }
  }

  /** The target of a relative branch whose next instruction starts at `pc`,
      wrapped into the 64K address space (`& 0xFFFF`). */
  function ResolveRel(pc: int, displacement: Byte): (target: int)
    ensures 0 <= target < AddressSpace
    ensures target == (pc + Signed8(displacement)) % AddressSpace
  {
    (pc + Displacement(displacement)) % AddressSpace
  }

  /** The address `k` bytes after `pc`, wrapped: what `pc` holds after `k`
      steps of `pc = (pc + 1) & 0xFFFF`. */
  function Offset(pc: int, k: int): Word
  {
    (pc + k) % AddressSpace
  }

  lemma OffsetStep(pc: int, k: int)
    ensures Offset(Offset(pc, 1), k) == Offset(pc, k + 1)
  {
  }

  lemma WrapAdd(a: int, b: int)
    ensures (a % AddressSpace + b) % AddressSpace == (a + b) % AddressSpace
  {
  }

  /** The operand loop: `count` bytes read one after another from the
      addresses following `pc`, each step wrapping at 0x10000. None when a
      read falls outside the image (IndexError). */
  function ReadOperands(rom: seq<Byte>, pc: int, count: nat): (r: Option<seq<Byte>>)
    decreases count
    ensures r.Some? <==> forall k :: 1 <= k <= count ==> Subscript(rom, Offset(pc, k)).Some?
    ensures r.Some? ==>
              |r.value| == count &&
              forall k :: 1 <= k <= count ==> Subscript(rom, Offset(pc, k)) == Some(r.value[k - 1])
  {
    if count == 0 then Some([])
    else
      var next := Offset(pc, 1);
      match Subscript(rom, next)
      case None => None
      case Some(b) =>
        var rest := ReadOperands(rom, next, count - 1);
        assert forall k :: 1 <= k < count ==> Offset(next, k) == Offset(pc, k + 1) by {
          forall k | 1 <= k < count { OffsetStep(pc, k); }
        }
        match rest
        case None => None
        case Some(tail) =>
          assert forall k :: 1 <= k <= count ==>
                   Subscript(rom, Offset(pc, k)) == Some(([b] + tail)[k - 1]) by {
            forall k | 1 <= k <= count
              ensures Subscript(rom, Offset(pc, k)) == Some(([b] + tail)[k - 1])
            {
              if k > 1 { assert Offset(next, k - 1) == Offset(pc, k); }
            }
          }
          Some([b] + tail)
  }

  /** Whether every byte an instruction starting at `pc` occupies can be read. */
  predicate Decodable(rom: seq<Byte>, pc: int)
  {
    Subscript(rom, pc).Some? &&
    forall k :: 1 <= k < InstructionLength(Opcodes(Subscript(rom, pc).value).mode) ==>
      Subscript(rom, Offset(pc, k)).Some?
  }

  /** The fields disassemble_inst derives from the operands, by addressing
      mode; `pc'` is the wrapped address following the instruction. */
  function DeriveFields(inst: Instruction, pc': int): Instruction
    requires |inst.operands| == InstructionLength(inst.mode) - 1
  {
    var operands := inst.operands;
    match inst.mode
    case Illegal => inst
    case Inherent => inst
    case ImmediateWord => inst.(immediate := Some(BigEndianWord(operands[0], operands[1])))
    case ImmediateByte => inst.(immediate := Some(operands[0]))
    case Extended => inst.(address := Some(BigEndianWord(operands[0], operands[1])))
    case Direct => inst.(address := Some(operands[0]))
    case DirectWithImmediateByte => inst.(address := Some(operands[0]), immediate := Some(operands[1]))
    case Register => inst.(register := Some(LowThreeBits(inst.opcode)))
    case RegisterWithImmediateByte =>
      inst.(register := Some(LowThreeBits(inst.opcode)), immediate := Some(operands[0]))
    case Pointer => inst
    case PointerWithImmediateByte => inst.(immediate := Some(operands[0]))
    case Index => inst.(ixdOffset := Some(operands[0]))
    case IndexWithImmediateByte => inst.(ixdOffset := Some(operands[0]), immediate := Some(operands[1]))
    case Vector => inst.(callv := Some(LowThreeBits(inst.opcode)))
    case BitDirect => inst.(bit := Some(LowThreeBits(inst.opcode)), address := Some(operands[0]))
    case Relative => inst.(address := Some(ResolveRel(pc', operands[0])))
    case BitDirectWithRelative =>
      inst.(bit := Some(LowThreeBits(inst.opcode)), bittestAddress := Some(operands[0]),
            address := Some(ResolveRel(pc', operands[1])))
  }

  /** disassemble_inst: the instruction at `pc`, or None when a byte it
      occupies lies outside the image. */
  function DisassembleInst(rom: seq<Byte>, pc: int): (r: Option<Instruction>)
    ensures r.Some? <==> Decodable(rom, pc)
    ensures r.Some? ==>
              var inst := r.value;
              && Opcodes(inst.opcode) == Opcode(inst.template, inst.mode, inst.flow)
              && inst.Length() == InstructionLength(inst.mode)
              && Subscript(rom, pc) == Some(inst.opcode)
              && forall k :: 1 <= k < inst.Length() ==>
                   Subscript(rom, Offset(pc, k)) == Some(inst.AllBytes()[k])
  {
    match Subscript(rom, pc)
    case None => None
    case Some(number) =>
      var opcode := Opcodes(number);
      var instlen := InstructionLength(opcode.mode);
      match ReadOperands(rom, pc, instlen - 1)
      case None => None
      case Some(operands) =>
        var inst := Instruction(opcode.template, opcode.mode, opcode.flow, number, operands,
                                None, None, None, None, None, None, None);
        Some(DeriveFields(inst, Offset(pc, instlen)))
  }

  /** Every addressing mode sets its own fields and leaves every other
      derived field None. */
  lemma FieldPresence(rom: seq<Byte>, pc: int)
    requires DisassembleInst(rom, pc).Some?
    ensures var inst := DisassembleInst(rom, pc).value;
      && (inst.address.Some? <==>
           inst.mode in {Extended, Direct, DirectWithImmediateByte, BitDirect, Relative, BitDirectWithRelative})
      && (inst.immediate.Some? <==>
           inst.mode in {ImmediateWord, ImmediateByte, DirectWithImmediateByte, RegisterWithImmediateByte,
                         PointerWithImmediateByte, IndexWithImmediateByte})
      && (inst.bittestAddress.Some? <==> inst.mode == BitDirectWithRelative)
      && (inst.ixdOffset.Some? <==> inst.mode in {Index, IndexWithImmediateByte})
      && (inst.bit.Some? <==> inst.mode in {BitDirect, BitDirectWithRelative})
      && (inst.callv.Some? <==> inst.mode == Vector)
      && (inst.register.Some? <==> inst.mode in {Register, RegisterWithImmediateByte})
  {
  }

  /** Every address the decoder derives, absolute or relative, lies in the
      64K address space. */
  lemma AddressInSpace(rom: seq<Byte>, pc: int)
    requires DisassembleInst(rom, pc).Some?
    ensures var inst := DisassembleInst(rom, pc).value;
      inst.address.Some? ==> 0 <= inst.address.value < AddressSpace
  {
    var inst := DisassembleInst(rom, pc).value;
    if inst.mode == Extended {
      WordOperandsBigEndian(rom, pc);
    }
  }

  /** Illegal, Inherent and Pointer instructions carry no derived field. */
  lemma NoOperandFields(rom: seq<Byte>, pc: int)
    requires DisassembleInst(rom, pc).Some?
    requires DisassembleInst(rom, pc).value.mode in {Illegal, Inherent, Pointer}
    ensures var inst := DisassembleInst(rom, pc).value;
      inst.address == inst.bittestAddress == inst.immediate == inst.ixdOffset == None &&
      inst.bit == inst.callv == inst.register == None
  {
    FieldPresence(rom, pc);
  }

  /** register, callv and bit are the low three bits of the opcode, so 0-7. */
  lemma OpcodeFieldsAreLowBits(rom: seq<Byte>, pc: int)
    requires DisassembleInst(rom, pc).Some?
    ensures var inst := DisassembleInst(rom, pc).value;
      && (inst.register.Some? ==> inst.register.value == inst.opcode % 8)
      && (inst.callv.Some? ==> inst.callv.value == inst.opcode % 8)
      && (inst.bit.Some? ==> inst.bit.value == inst.opcode % 8)
      && (inst.register.Some? ==> 0 <= inst.register.value < 8)
      && (inst.callv.Some? ==> 0 <= inst.callv.value < 8)
      && (inst.bit.Some? ==> 0 <= inst.bit.value < 8)
  {
  }

  /** The ImmediateWord immediate and the Extended address are big-endian:
      the high byte follows the opcode, the low byte comes after it. */
  lemma WordOperandsBigEndian(rom: seq<Byte>, pc: int)
    requires DisassembleInst(rom, pc).Some?
    requires DisassembleInst(rom, pc).value.mode in {ImmediateWord, Extended}
    ensures var inst := DisassembleInst(rom, pc).value;
      var w := if inst.mode == ImmediateWord then inst.immediate else inst.address;
      && w.Some? && 0 <= w.value < 0x10000
      && Subscript(rom, Offset(pc, 1)) == Some(w.value / 0x100)
      && Subscript(rom, Offset(pc, 2)) == Some(w.value % 0x100)
  {
  }

  /** A relative branch lands `Signed8(displacement)` bytes after the 2-byte
      instruction; a bit branch keeps the tested direct address in
      bittestAddress and lands relative to the end of its 3 bytes. Both
      targets wrap into 0 .. 0xFFFF. */
  lemma BranchTargets(rom: seq<Byte>, pc: int)
    requires DisassembleInst(rom, pc).Some?
    requires DisassembleInst(rom, pc).value.mode in {Relative, BitDirectWithRelative}
    ensures var inst := DisassembleInst(rom, pc).value;
      && (inst.mode == Relative ==>
            inst.address == Some(Offset(pc, 2 + Signed8(inst.operands[0]))))
      && (inst.mode == BitDirectWithRelative ==>
            inst.bittestAddress == Some(inst.operands[0]) &&
            inst.address == Some(Offset(pc, 3 + Signed8(inst.operands[1]))))
  {
    var inst := DisassembleInst(rom, pc).value;
    var displacement := inst.operands[|inst.operands| - 1];
    WrapAdd(pc + inst.Length(), Signed8(displacement));
  }

  /** Operand reads agree on two images that agree on the bytes read. */
  lemma {:induction false} ReadOperandsLocal(rom1: seq<Byte>, rom2: seq<Byte>, pc: int, count: nat)
    requires forall k :: 1 <= k <= count ==> Subscript(rom1, Offset(pc, k)) == Subscript(rom2, Offset(pc, k))
    ensures ReadOperands(rom1, pc, count) == ReadOperands(rom2, pc, count)
    decreases count
  {
    if count > 0 {
      var next := Offset(pc, 1);
      forall k | 1 <= k <= count - 1
        ensures Subscript(rom1, Offset(next, k)) == Subscript(rom2, Offset(next, k))
      {
        OffsetStep(pc, k);
      }
      ReadOperandsLocal(rom1, rom2, next, count - 1);
    }
  }

  /** Decoding is deterministic and reads only the instruction's own bytes:
      two images that agree on the opcode at `pc` and on the operand bytes
      after it (wrapping at 0x10000) decode to equal results. */
  lemma DecodeReadsOnlyItsBytes(rom1: seq<Byte>, rom2: seq<Byte>, pc: int)
    requires Subscript(rom1, pc) == Subscript(rom2, pc)
    requires Subscript(rom1, pc).Some? ==>
               forall k :: 1 <= k < InstructionLength(Opcodes(Subscript(rom1, pc).value).mode) ==>
                 Subscript(rom1, Offset(pc, k)) == Subscript(rom2, Offset(pc, k))
    ensures DisassembleInst(rom1, pc) == DisassembleInst(rom2, pc)
  {
    if Subscript(rom1, pc).Some? {
      var count := InstructionLength(Opcodes(Subscript(rom1, pc).value).mode) - 1;
      ReadOperandsLocal(rom1, rom2, pc, count);
    }
  }

  /** On a full 64K image every address decodes: operand reads wrap and so
      never fall outside the image. */
  lemma FullImageDecodes(rom: seq<Byte>, pc: int)
    requires |rom| == AddressSpace && 0 <= pc < AddressSpace
    ensures DisassembleInst(rom, pc).Some?
  {
  }

  /** The successor address the tracer needs: decode, then step past the
      instruction, wrapping at 0x10000. */
  function DisassembleWithNextPc(rom: seq<Byte>, pc: int): (r: Option<(int, Instruction)>)
    ensures r.Some? <==> Decodable(rom, pc)
    ensures r.Some? ==> 0 <= r.value.0 < AddressSpace &&
                        r.value.0 == Offset(pc, InstructionLength(r.value.1.mode))
  {
    match DisassembleInst(rom, pc)
    case None => None
    case Some(inst) => Some((Offset(pc, inst.Length()), inst))
  }

  /** Neither store property holds outside the ImmediateWord mode. */
  lemma StoresNeedImmediateWord(inst: Instruction)
    requires inst.mode != ImmediateWord
    ensures !inst.StoresImmediateWordInPointer() && !inst.StoresImmediateWordInA()
  {
  }

  /** movw a, #IMW names the accumulator and no pointer register. */
  lemma {:induction false} AccumulatorTemplate(t: string)
    requires t == "movw a, #IMW"
    ensures Contains(t, "a")
    ensures !Contains(t, "ep") && !Contains(t, "ix") && !Contains(t, "sp")
  {
    ContainsAt(t, "a", 5);
    NotContains(t, "ep");
    NotContains(t, "ix");
    NotContains(t, "sp");
  }

  /** movw sp/ix/ep, #IMW names its pointer register and not the accumulator. */
  lemma {:induction false} PointerTemplate(t: string, reg: string)
    requires reg in {"sp", "ix", "ep"} && t == "movw " + reg + ", #IMW"
    ensures Contains(t, reg) && !Contains(t, "a")
  {
    assert t[5..7] == reg;
    ContainsAt(t, reg, 5);
    NotContains(t, "a");
  }

  /** The register each ImmediateWord opcode's template names. */
  lemma ImmediateWordTemplate(op: Byte)
    requires 0xE4 <= op <= 0xE7
    ensures var t := Opcodes(op).template;
      && (Contains(t, "a") <==> op == 0xE4)
      && (Contains(t, "ep") || Contains(t, "ix") || Contains(t, "sp") <==> op != 0xE4)
  {
    var t := Opcodes(op).template;
    assert Opcodes(op) == RowE(op);
    if op == 0xE4 {
      AccumulatorTemplate(t);
    } else if op == 0xE5 {
      PointerTemplate(t, "sp");
    } else if op == 0xE6 {
      PointerTemplate(t, "ix");
    } else {
      PointerTemplate(t, "ep");
    }
  }

  /** movw a, #IMW (0xE4) is the one instruction that stores an immediate
      word in the accumulator; movw sp/ix/ep, #IMW (0xE5-0xE7) are the ones
      that store it in a pointer register. */
  lemma ImmediateWordStores(inst: Instruction)
    requires Opcodes(inst.opcode) == Opcode(inst.template, inst.mode, inst.flow)
    ensures inst.StoresImmediateWordInA() <==> inst.opcode == 0xE4
    ensures inst.StoresImmediateWordInPointer() <==> 0xE5 <= inst.opcode <= 0xE7
  {
    ImmediateWordOpcodes(inst.opcode);
    if inst.mode == ImmediateWord {
      ImmediateWordTemplate(inst.opcode);
    }
  }

  /** The converse of ReadOperands' contract: the bytes found after `pc` are
      the operands read. */
  lemma ReadOperandsOf(rom: seq<Byte>, pc: int, ops: seq<Byte>)
    requires forall k :: 1 <= k <= |ops| ==> Subscript(rom, Offset(pc, k)) == Some(ops[k - 1])
    ensures ReadOperands(rom, pc, |ops|) == Some(ops)
  {
    var r := ReadOperands(rom, pc, |ops|);
    assert forall k :: 1 <= k <= |ops| ==> Subscript(rom, Offset(pc, k)).Some?;
    forall i | 0 <= i < |ops|
      ensures r.value[i] == ops[i]
    {
      assert Subscript(rom, Offset(pc, i + 1)) == Some(ops[i]);
    }
    assert r.value == ops;
  }

  // The decoder's unit examples, decoded at address 0.

  lemma RelativeExample()
    ensures DisassembleInst([0xFD, 0x05], 0) ==
      Some(Instruction("beq REL", Relative, ConditionalJump, 0xFD, [0x05],
                       Some(0x0007), None, None, None, None, None, None))
  {
    var rom: seq<Byte> := [0xFD, 0x05];
    assert Opcodes(0xFD) == RowF(0xFD);
    assert Subscript(rom, Offset(0, 1)) == Some(0x05);
    ReadOperandsOf(rom, 0, [0x05]);
  }

  lemma BitBranchExample()
    ensures DisassembleInst([0xB7, 0xAA, 0x08], 0) ==
      Some(Instruction("bbc DIR:BIT,REL", BitDirectWithRelative, ConditionalJump, 0xB7, [0xAA, 0x08],
                       Some(0x000B), Some(0xAA), None, None, Some(7), None, None))
  {
    var rom: seq<Byte> := [0xB7, 0xAA, 0x08];
    assert Opcodes(0xB7) == RowB(0xB7);
    assert Subscript(rom, Offset(0, 1)) == Some(0xAA);
    assert Subscript(rom, Offset(0, 2)) == Some(0x08);
    ReadOperandsOf(rom, 0, [0xAA, 0x08]);
  }

  lemma ImmediateWordExample()
    ensures DisassembleInst([0xE4, 0xAA, 0xBB], 0) ==
      Some(Instruction("movw a, #IMW", ImmediateWord, Continue, 0xE4, [0xAA, 0xBB],
                       None, None, Some(0xAABB), None, None, None, None))
  {
    var rom: seq<Byte> := [0xE4, 0xAA, 0xBB];
    assert Opcodes(0xE4) == RowE(0xE4);
    assert Subscript(rom, Offset(0, 1)) == Some(0xAA);
    assert Subscript(rom, Offset(0, 2)) == Some(0xBB);
    ReadOperandsOf(rom, 0, [0xAA, 0xBB]);
  }

  lemma ExtendedExample()
    ensures DisassembleInst([0x31, 0xAA, 0xBB], 0) ==
      Some(Instruction("call EXT", Extended, SubroutineCall, 0x31, [0xAA, 0xBB],
                       Some(0xAABB), None, None, None, None, None, None))
  {
    var rom: seq<Byte> := [0x31, 0xAA, 0xBB];
    assert Opcodes(0x31) == Row3(0x31);
    assert Subscript(rom, Offset(0, 1)) == Some(0xAA);
    assert Subscript(rom, Offset(0, 2)) == Some(0xBB);
    ReadOperandsOf(rom, 0, [0xAA, 0xBB]);
  }

  lemma RegisterExample()
    ensures DisassembleInst([0xC8], 0) ==
      Some(Instruction("inc rREG", Register, Continue, 0xC8, [],
                       None, None, None, None, None, None, Some(0)))
  {
    assert Opcodes(0xC8) == RowC(0xC8);
    ReadOperandsOf([0xC8], 0, []);
  }

  lemma RegisterWithImmediateExample()
    ensures DisassembleInst([0x88, 0xAA], 0) ==
      Some(Instruction("mov rREG, #IMB", RegisterWithImmediateByte, Continue, 0x88, [0xAA],
                       None, None, Some(0xAA), None, None, None, Some(0)))
  {
    var rom: seq<Byte> := [0x88, 0xAA];
    assert Opcodes(0x88) == Row8(0x88);
    assert Subscript(rom, Offset(0, 1)) == Some(0xAA);
    ReadOperandsOf(rom, 0, [0xAA]);
  }

  lemma BitDirectExample()
    ensures DisassembleInst([0xA0, 0xAA], 0) ==
      Some(Instruction("clrb DIR:BIT", BitDirect, Continue, 0xA0, [0xAA],
                       Some(0xAA), None, None, None, Some(0), None, None))
  {
    var rom: seq<Byte> := [0xA0, 0xAA];
    assert Opcodes(0xA0) == RowA(0xA0);
    assert Subscript(rom, Offset(0, 1)) == Some(0xAA);
    ReadOperandsOf(rom, 0, [0xAA]);
  }

  lemma VectorExample()
    ensures DisassembleInst([0xE8], 0) ==
      Some(Instruction("callv #VEC", Vector, IndirectSubroutineCall, 0xE8, [],
                       None, None, None, None, None, Some(0), None))
  {
    assert Opcodes(0xE8) == RowE(0xE8);
    ReadOperandsOf([0xE8], 0, []);
  }

  lemma IndexWithImmediateExample()
    ensures DisassembleInst([0x86, 0xAA, 0xBB], 0) ==
      Some(Instruction("mov @ix+IXD, #IMB", IndexWithImmediateByte, Continue, 0x86, [0xAA, 0xBB],
                       None, None, Some(0xBB), Some(0xAA), None, None, None))
  {
    var rom: seq<Byte> := [0x86, 0xAA, 0xBB];
    assert Opcodes(0x86) == Row8(0x86);
    assert Subscript(rom, Offset(0, 1)) == Some(0xAA);
    assert Subscript(rom, Offset(0, 2)) == Some(0xBB);
    ReadOperandsOf(rom, 0, [0xAA, 0xBB]);
  }

  /** Operand reads wrap at 0x10000: an opcode read at -1 (Python's last
      element, which in a full 64K image is address 0xFFFF) takes its
      operand from address 0, and the branch counts from address 1. */
  lemma WrappedOperandExample()
    ensures DisassembleInst([0x03, 0xFD], -1) ==
      Some(Instruction("beq REL", Relative, ConditionalJump, 0xFD, [0x03],
                       Some(0x0004), None, None, None, None, None, None))
  {
    var rom: seq<Byte> := [0x03, 0xFD];
    assert Opcodes(0xFD) == RowF(0xFD);
    assert Subscript(rom, Offset(-1, 1)) == Some(0x03);
    ReadOperandsOf(rom, -1, [0x03]);
  }

  /** A truncated instruction is an IndexError: 0x31 needs two operand bytes. */
  lemma TruncatedExample()
    ensures DisassembleInst([0x31, 0xAA], 0) == None
  {
    assert Opcodes(0x31) == Row3(0x31);
    assert Subscript([0x31, 0xAA], Offset(0, 2)) == None;
  }
}
