/** The monolithic script (f2mc8dasm.py): its own decoder, which counts
    addresses without wrapping and flags instructions that the assembler
    would not reproduce byte for byte, and the trace loop of its `main`. */
module Script {
  import opened Tables
  import opened Support
  import Tracing
  import Disasm

  /** A decoded instruction of the script. It has no separate bit-test
      address: a bit branch keeps only `address`. */
  datatype Instruction = Instruction(
    disasmAsBytes: bool,            // list as raw bytes, since the assembler would re-encode it differently
    template: string,
    mode: AddressMode,
    flow: FlowType,
    opcode: Byte,
    operands: seq<Byte>,
    address: Option<int>,
    immediate: Option<int>,
    ixdOffset: Option<int>,
    bit: Option<int>,
    callv: Option<int>,
    register: Option<int>)
  {
    /** The opcode followed by the operands. */
    function AllBytes(): (r: seq<Byte>)
      ensures |r| == 1 + |operands| && r[0] == opcode && r[1..] == operands
    {
      [opcode] + operands
    }
  }

  /** resolve_rel of the script: the signed displacement added to `pc`
      with no wrap, so the target can leave 0 .. 0xFFFF. */
  function ResolveRel(pc: int, displacement: Byte): (target: int)
    ensures target == pc + Signed8(displacement)
    ensures pc - 0x80 <= target < pc + 0x80
  {
    pc + Displacement(displacement)
  }

  /** `count` bytes read from `pc` upwards (`pc += 1` with no wrap); None
      when a read falls outside the image (IndexError). */
  function ReadOperands(rom: seq<Byte>, pc: int, count: nat): (r: Option<seq<Byte>>)
    decreases count
    ensures r.Some? <==> forall k :: pc <= k < pc + count ==> Subscript(rom, k).Some?
    ensures r.Some? ==>
              |r.value| == count &&
              forall k :: 0 <= k < count ==> Subscript(rom, pc + k) == Some(r.value[k])
  {
    if count == 0 then Some([])
    else
      match Subscript(rom, pc)
      case None => None
      case Some(b) =>
        match ReadOperands(rom, pc + 1, count - 1)
        case None => None
        case Some(tail) =>
          assert forall k :: 1 <= k < count ==> ([b] + tail)[k] == tail[k - 1];
          Some([b] + tail)
  }

  /** Whether every byte an instruction starting at `pc` occupies can be read. */
  predicate Decodable(rom: seq<Byte>, pc: int)
  {
    Subscript(rom, pc).Some? &&
    forall k :: pc < k < pc + InstructionLength(Opcodes(Subscript(rom, pc).value).mode) ==>
      Subscript(rom, k).Some?
  }

  /** The fields the script derives per addressing mode; `pc'` is the
      address after the instruction. As written, a bit branch takes its
      displacement from operands[0], the tested direct address. */
  function DeriveFields(inst: Instruction, pc': int): Instruction
    requires |inst.operands| == InstructionLength(inst.mode) - 1
  {
    var operands := inst.operands;
    match inst.mode
    case Illegal => inst
    case Inherent => inst
    case ImmediateWord => inst.(immediate := Some(BigEndianWord(operands[0], operands[1])))
    case ImmediateByte => inst.(immediate := Some(operands[0]))
    case Extended =>
      inst.(address := Some(BigEndianWord(operands[0], operands[1])), disasmAsBytes := operands[0] == 0)
    case Direct => inst.(address := Some(operands[0]))
    case DirectWithImmediateByte => inst.(address := Some(operands[0]), immediate := Some(operands[1]))
    case Register => inst.(register := Some(LowThreeBits(inst.opcode)))
    case RegisterWithImmediateByte =>
      inst.(register := Some(LowThreeBits(inst.opcode)), immediate := Some(operands[0]))
    case Pointer => inst
    case PointerWithImmediateByte => inst.(immediate := Some(operands[0]))
    case Index => inst.(ixdOffset := Some(operands[0]))
    case IndexWithImmediateByte => inst.(ixdOffset := Some(operands[0]), immediate := Some(operands[1]))
    case Vector => inst.(callv := Some(LowThreeBits(inst.opcode)))
    case BitDirect => inst.(bit := Some(LowThreeBits(inst.opcode)), address := Some(operands[0]))
    case Relative => inst.(address := Some(ResolveRel(pc', operands[0])), disasmAsBytes := true)
    case BitDirectWithRelative =>
      inst.(bit := Some(LowThreeBits(inst.opcode)), address := Some(ResolveRel(pc', operands[0])),
            disasmAsBytes := true)
  }

  /** disassemble_inst of the script: the address after the instruction and
      the instruction, or None when a byte it occupies lies outside the
      image. */
  function DisassembleInst(rom: seq<Byte>, pc: int): (r: Option<(int, Instruction)>)
    ensures r.Some? <==> Decodable(rom, pc)
    ensures r.Some? ==>
              var (newPc, inst) := r.value;
              && Opcodes(inst.opcode) == Opcode(inst.template, inst.mode, inst.flow)
              && newPc == pc + InstructionLength(inst.mode)
              && |inst.AllBytes()| == InstructionLength(inst.mode)
              && Subscript(rom, pc) == Some(inst.opcode)
              && forall k :: 1 <= k < |inst.AllBytes()| ==> Subscript(rom, pc + k) == Some(inst.AllBytes()[k])
  {
    match Subscript(rom, pc)
    case None => None
    case Some(number) =>
      var opcode := Opcodes(number);
      var instlen := InstructionLength(opcode.mode);
      match ReadOperands(rom, pc + 1, instlen - 1)
      case None => None
      case Some(operands) =>
        var inst := Instruction(false, opcode.template, opcode.mode, opcode.flow, number, operands,
                                None, None, None, None, None, None);
        Some((pc + instlen, DeriveFields(inst, pc + instlen)))
  }

  /** disasm_as_bytes is set for every relative and bit branch, and for an
      extended instruction exactly when its high address byte is zero. */
  lemma DisasmAsBytesRule(rom: seq<Byte>, pc: int)
    requires DisassembleInst(rom, pc).Some?
    ensures var inst := DisassembleInst(rom, pc).value.1;
      inst.disasmAsBytes <==>
        inst.mode in {Relative, BitDirectWithRelative} || (inst.mode == Extended && inst.operands[0] == 0)
  {
  }

  /** Relative targets are not wrapped: near either end of memory they fall
      outside 0 .. 0xFFFF. */
  lemma ResolveRelLeavesAddressSpace()
    ensures ResolveRel(0, 0xFE) == -2
    ensures ResolveRel(0xFFFE, 0x7F) == 0x1007D
  {
  }

  /** As written, a bit branch's target is counted from operands[0], the
      tested direct address, rather than from the displacement byte. */
  lemma BitBranchUsesTestedAddress(rom: seq<Byte>, pc: int)
    requires DisassembleInst(rom, pc).Some?
    requires DisassembleInst(rom, pc).value.1.mode == BitDirectWithRelative
    ensures var inst := DisassembleInst(rom, pc).value.1;
      inst.address == Some(pc + 3 + Signed8(inst.operands[0]))
  {
  }

  /** `b7 aa 08` (bbc 0xaa:7 with displacement 8) at address 0: the script
      branches to -83, computed from the tested address 0xAA, where the
      package decoder branches to 0x000B. */
  lemma BitBranchTargetFinding()
    ensures DisassembleInst([0xB7, 0xAA, 0x08], 0).Some?
    ensures DisassembleInst([0xB7, 0xAA, 0x08], 0).value.1.address == Some(-83)
    ensures Disasm.DisassembleInst([0xB7, 0xAA, 0x08], 0).value.address == Some(0x000B)
  {
    var rom: seq<Byte> := [0xB7, 0xAA, 0x08];
    assert Opcodes(0xB7) == RowB(0xB7);
    assert Subscript(rom, 1) == Some(0xAA) && Subscript(rom, 2) == Some(0x08);
    var operands := ReadOperands(rom, 1, 2);
    assert operands.value[0] == 0xAA && operands.value[1] == 0x08;
    assert |operands.value| == 2;
    assert operands.value == [0xAA, 0x08];
    Disasm.BitBranchExample();
  }

  /** Away from the top of memory both decoders read the same bytes. */
  lemma {:induction false} OperandReadsAgree(rom: seq<Byte>, pc: int, count: nat)
    requires 0 <= pc && pc + count < AddressSpace
    ensures Disasm.ReadOperands(rom, pc, count) == ReadOperands(rom, pc + 1, count)
    decreases count
  {
    if count > 0 {
      assert Disasm.Offset(pc, 1) == pc + 1;
      OperandReadsAgree(rom, pc + 1, count - 1);
    }
  }

  /** The per-mode fields of the two decoders agree on equal input, the
      package's address being the script's reduced modulo 0x10000, except
      for the bit-branch target. */
  lemma DeriveFieldsAgree(inst: Instruction, pkg: Disasm.Instruction, pc': int)
    requires |inst.operands| == InstructionLength(inst.mode) - 1
    requires (inst.mode, inst.opcode, inst.operands) == (pkg.mode, pkg.opcode, pkg.operands)
    requires inst.address == inst.immediate == inst.ixdOffset == inst.bit == inst.callv == inst.register == None
    requires pkg.address == pkg.immediate == pkg.ixdOffset == pkg.bit == pkg.callv == pkg.register == None
    ensures var derived := DeriveFields(inst, pc');
      var pkgDerived := Disasm.DeriveFields(pkg, pc' % AddressSpace);
      && (derived.immediate, derived.ixdOffset, derived.bit, derived.callv, derived.register) ==
         (pkgDerived.immediate, pkgDerived.ixdOffset, pkgDerived.bit, pkgDerived.callv, pkgDerived.register)
      && (inst.mode != BitDirectWithRelative ==>
            pkgDerived.address ==
              if derived.address.Some? then Some(derived.address.value % AddressSpace) else None)
  {
    if inst.mode == Relative {
      Disasm.WrapAdd(pc', Signed8(inst.operands[0]));
    }
  }

  /** Where nothing wraps, the script and the package decode alike: the
      same bytes, table entry and derived fields, the package's address
      being the script's reduced modulo 0x10000 -- except for a bit
      branch, whose target the two compute from different bytes. */
  lemma DecodersAgree(rom: seq<Byte>, pc: int)
    requires 0 <= pc < AddressSpace - 3
    ensures DisassembleInst(rom, pc).Some? <==> Disasm.DisassembleInst(rom, pc).Some?
    ensures DisassembleInst(rom, pc).Some? ==>
              var (newPc, inst) := DisassembleInst(rom, pc).value;
              var pkg := Disasm.DisassembleInst(rom, pc).value;
              && newPc == pc + pkg.Length()
              && (inst.template, inst.mode, inst.flow, inst.opcode, inst.operands) ==
                 (pkg.template, pkg.mode, pkg.flow, pkg.opcode, pkg.operands)
              && (inst.immediate, inst.ixdOffset, inst.bit, inst.callv, inst.register) ==
                 (pkg.immediate, pkg.ixdOffset, pkg.bit, pkg.callv, pkg.register)
              && (inst.mode != BitDirectWithRelative ==>
                    pkg.address == if inst.address.Some? then Some(inst.address.value % AddressSpace) else None)
  {
    if Subscript(rom, pc).Some? {
      var number := Subscript(rom, pc).value;
      var opcode := Opcodes(number);
      var instlen := InstructionLength(opcode.mode);
      OperandReadsAgree(rom, pc, instlen - 1);
      var operands := ReadOperands(rom, pc + 1, instlen - 1);
      if operands.Some? {
        DeriveFieldsAgree(
          Instruction(false, opcode.template, opcode.mode, opcode.flow, number, operands.value,
                      None, None, None, None, None, None),
          Disasm.Instruction(opcode.template, opcode.mode, opcode.flow, number, operands.value,
                             None, None, None, None, None, None, None),
          pc + instlen);
      }
    }
  }

  /** The entry points `main` queues: reset, the callv and interrupt
      vectors (0xE012 appears twice) and the targets of `jmp @a`. */
  const EntryPoints: seq<int> := [
    0xE012,
    0xE0CB, 0xE0DD, 0xE0EF, 0xE163, 0xE175, 0xE187, 0xE012, 0xE199,
    0xE63F, 0xE726, 0xE791, 0xE961, 0xEA21, 0xEA9F, 0xEBA8, 0xEC42, 0xEC80]

  /** The image as `main` loads it: 0xE000 zero bytes, then the file. */
  function LoadImage(image: seq<Byte>): (rom: seq<Byte>)
    ensures |rom| == 0xE000 + |image|
    ensures forall a :: 0 <= a < 0xE000 ==> rom[a] == 0
    ensures rom[0xE000..] == image
  {
    seq(0xE000, _ => 0) + image
  }

  lemma EntryPointsInRange()
    ensures forall a | a in EntryPoints :: 0xE000 <= a < 0x10000
  {
  }

  /** What a completed trace of `main` has found: every entry point was
      decoded, every decoded address lies in 0xE000 .. 0xFFFF and holds the
      script decoder's output, every successor in that range was decoded,
      and the subroutine set is exactly the set of call targets. */
  lemma MainTraceComplete(rom: seq<Byte>, decode: (seq<Byte>, int) -> Option<(int, Instruction)>,
                          flowOf: Instruction -> FlowType, addressOf: Instruction -> Option<int>,
                          range: set<int>, traced: set<int>, instructions: map<int, Instruction>,
                          subroutines: set<Option<int>>, popped: seq<int>)
    requires forall a :: a in range <==> 0xE000 <= a < 0x10000
    requires Tracing.Explored(rom, decode, flowOf, addressOf, {}, (set a | a in EntryPoints), range,
                              traced, {}, instructions, subroutines, popped)
    ensures forall a | a in EntryPoints :: a in instructions
    ensures forall a | a in instructions :: 0xE000 <= a < 0x10000
    ensures forall a | a in instructions :: decode(rom, a).Some? && decode(rom, a).value.1 == instructions[a]
    ensures forall a | a in instructions ::
              forall s | s in Tracing.Successors(flowOf(instructions[a]), addressOf(instructions[a]),
                                                 decode(rom, a).value.0) ::
                0xE000 <= s < 0x10000 ==> s in instructions
    ensures subroutines == set a | a in instructions && flowOf(instructions[a]) == SubroutineCall ::
                             addressOf(instructions[a])
  {
    Tracing.ExploredComplete(rom, decode, flowOf, addressOf, {}, (set a | a in EntryPoints), range, traced,
                             instructions, subroutines, popped);
    EntryPointsInRange();
  }

  /** The script decoder's next pc is the address right after the
      instruction's bytes. */
  lemma NextPcFollows(rom: seq<Byte>, pc: int)
    requires DisassembleInst(rom, pc).Some?
    ensures DisassembleInst(rom, pc).value.0 == pc + InstructionLength(DisassembleInst(rom, pc).value.1.mode)
  {
  }

  /** `order` lists the decoded addresses so that each is an entry point or
      a successor of an instruction listed before it: every decoded address
      is reachable from the entry points. */
  ghost predicate ReachedInOrder(instructions: map<int, Instruction>, order: seq<int>)
  {
    && (set a | a in order) == instructions.Keys
    && forall i | 0 <= i < |order| :: ReachedBefore(instructions, order, i)
  }

  /** `order[i]` is an entry point or a successor of the decoded
      instruction at an earlier `order[j]`, whose next instruction starts
      right after its bytes. */
  ghost predicate ReachedBefore(instructions: map<int, Instruction>, order: seq<int>, i: int)
  {
    && 0 <= i < |order|
    && (|| order[i] in EntryPoints
        || exists j | 0 <= j < i ::
             && order[j] in instructions
             && order[i] in Tracing.Successors(instructions[order[j]].flow, instructions[order[j]].address,
                                               order[j] + InstructionLength(instructions[order[j]].mode)))
  }

  /** The order in which the trace of `main` popped its addresses shows
      every decoded address reachable from the entry points. */
  lemma MainTraceReaches(rom: seq<Byte>, decode: (seq<Byte>, int) -> Option<(int, Instruction)>,
                         flowOf: Instruction -> FlowType, addressOf: Instruction -> Option<int>,
                         instructions: map<int, Instruction>, popped: seq<int>)
    requires forall a | decode(rom, a).Some? ::
               decode(rom, a).value.0 == a + InstructionLength(decode(rom, a).value.1.mode)
    requires forall a | a in instructions :: decode(rom, a).Some? && decode(rom, a).value.1 == instructions[a]
    requires forall inst :: flowOf(inst) == inst.flow && addressOf(inst) == inst.address
    requires (set a | a in popped) == instructions.Keys
    requires Tracing.Justified(rom, decode, flowOf, addressOf, (set a | a in EntryPoints), {}, instructions, popped)
    ensures ReachedInOrder(instructions, popped)
  {
    forall i | 0 <= i < |popped|
      ensures ReachedBefore(instructions, popped, i)
    {
      assert Tracing.QueuedBy(rom, decode, flowOf, addressOf, (set a | a in EntryPoints), instructions, popped,
                              popped[i], i);
      ReachedAt(rom, decode, flowOf, addressOf, instructions, popped, i);
    }
  }

  /** One popped address that was queued as an entry point or as a
      successor of an earlier popped address is reached before. */
  lemma ReachedAt(rom: seq<Byte>, decode: (seq<Byte>, int) -> Option<(int, Instruction)>,
                  flowOf: Instruction -> FlowType, addressOf: Instruction -> Option<int>,
                  instructions: map<int, Instruction>, popped: seq<int>, i: int)
    requires forall a | decode(rom, a).Some? ::
               decode(rom, a).value.0 == a + InstructionLength(decode(rom, a).value.1.mode)
    requires forall a | a in instructions :: decode(rom, a).Some? && decode(rom, a).value.1 == instructions[a]
    requires forall inst :: flowOf(inst) == inst.flow && addressOf(inst) == inst.address
    requires 0 <= i < |popped|
    requires Tracing.QueuedBy(rom, decode, flowOf, addressOf, (set a | a in EntryPoints), instructions, popped,
                              popped[i], i)
    ensures ReachedBefore(instructions, popped, i)
  {
    if popped[i] !in (set a | a in EntryPoints) {
      var j :| 0 <= j < i &&
               popped[i] in Tracing.SuccessorsAt(rom, decode, flowOf, addressOf, instructions, popped[j]);
      assert popped[j] in instructions;
    } else {
      assert popped[i] in EntryPoints;
    }
  }

  /** The script's `inst.flow_type`, as the value the tracer is given. */
  function FlowOf(inst: Instruction): FlowType
  {
    inst.flow
  }

  /** The script's `inst.address`, as the value the tracer is given. */
  function AddressOf(inst: Instruction): Option<int>
  {
    inst.address
  }

  /** What a completed trace of `main` with the script decoder returns:
      the entry points and only addresses of 0xE000 .. 0xFFFF are decoded,
      each holding the decoder's output, closed under in-range successors,
      with the subroutine set exactly the call targets, and the popped
      order reaching every decoded address from the entry points. */
  lemma MainTraceResult(rom: seq<Byte>, range: set<int>, traced: set<int>,
                        instructions: map<int, Instruction>, subroutines: set<Option<int>>, popped: seq<int>)
    requires forall a :: a in range <==> 0xE000 <= a < 0x10000
    requires Tracing.Explored(rom, DisassembleInst, FlowOf, AddressOf, {}, (set a | a in EntryPoints), range,
                              traced, {}, instructions, subroutines, popped)
    requires Tracing.Justified(rom, DisassembleInst, FlowOf, AddressOf, (set a | a in EntryPoints), {},
                               instructions, popped)
    ensures forall a | a in EntryPoints :: a in instructions
    ensures forall a | a in instructions :: 0xE000 <= a < 0x10000
    ensures forall a | a in instructions ::
              DisassembleInst(rom, a).Some? && DisassembleInst(rom, a).value.1 == instructions[a]
    ensures forall a | a in instructions ::
              forall s | s in Tracing.Successors(instructions[a].flow, instructions[a].address,
                                                 DisassembleInst(rom, a).value.0) ::
                0xE000 <= s < 0x10000 ==> s in instructions
    ensures subroutines == set a | a in instructions && instructions[a].flow == SubroutineCall ::
                             instructions[a].address
    ensures ReachedInOrder(instructions, popped)
  {
    MainTraceComplete(rom, DisassembleInst, FlowOf, AddressOf, range, traced, instructions, subroutines, popped);
    forall a | DisassembleInst(rom, a).Some?
      ensures DisassembleInst(rom, a).value.0 == a + InstructionLength(DisassembleInst(rom, a).value.1.mode)
    {
      NextPcFollows(rom, a);
    }
    MainTraceReaches(rom, DisassembleInst, FlowOf, AddressOf, instructions, popped);
  }

  /** An address the trace of `main` popped lies in 0xE000 .. 0xFFFF: it
      was an entry point or was pushed from within the range. */
  lemma PoppedInRange(popped: seq<int>, traced: set<int>, untraced0: set<int>, range: set<int>, a: int)
    requires (set x | x in popped) == traced - {}
    requires traced - {} <= untraced0 + range
    requires untraced0 == set x | x in EntryPoints
    requires forall x :: x in range <==> 0xE000 <= x < 0x10000
    requires a in popped
    ensures 0xE000 <= a < 0x10000
  {
    assert a in (set x | x in popped);
    if a in untraced0 {
      assert a in EntryPoints;
      EntryPointsInRange();
    } else {
      assert a in traced - {};
      assert a in range;
    }
  }

  /** The trace loop of `main`: the entry points are queued with the
      traceable range 0xE000 .. 0xFFFF, and control flow is followed with
      the script's decoder. On success every entry point is decoded, only
      addresses of the range are, each holds its decoder output, every
      in-range successor is decoded and the subroutine set is exactly the
      set of call targets; and the decoded addresses can be listed so that
      each is reached from an entry point or an earlier one, so nothing
      unreachable is decoded. The trace fails only when some address of the
      range does not decode. */
  method TraceImage(image: seq<Byte>) returns (r: Option<(map<int, Instruction>, set<Option<int>>)>)
    ensures r.None? ==> exists a :: 0xE000 <= a < 0x10000 && DisassembleInst(LoadImage(image), a).None?
    ensures r.Some? ==>
              var instructions := r.value.0;
              && (forall a | a in EntryPoints :: a in instructions)
              && (forall a | a in instructions :: 0xE000 <= a < 0x10000)
              && (forall a | a in instructions ::
                    DisassembleInst(LoadImage(image), a).Some? &&
                    DisassembleInst(LoadImage(image), a).value.1 == instructions[a])
              && (forall a | a in instructions ::
                    forall s | s in Tracing.Successors(instructions[a].flow, instructions[a].address,
                                                       DisassembleInst(LoadImage(image), a).value.0) ::
                      0xE000 <= s < 0x10000 ==> s in instructions)
              && r.value.1 == (set a | a in instructions && instructions[a].flow == SubroutineCall ::
                                 instructions[a].address)
              && exists order :: ReachedInOrder(instructions, order)
  {
    var rom := LoadImage(image);
    var queue := new Tracing.TraceQueue(EntryPoints, 0xE000, 0x10000);
    var tracer := new Tracing.Tracer(rom, queue);
    ghost var untraced0 := queue.untraced;
    ghost var popped;
    r, popped := tracer.Trace(DisassembleInst, FlowOf, AddressOf);
    if r.Some? {
      MainTraceResult(rom, queue.TraceableRange(), queue.traced, r.value.0, r.value.1, popped);
    } else {
      ghost var a :| a in popped && DisassembleInst(rom, a).None?;
      PoppedInRange(popped, queue.traced, untraced0, queue.TraceableRange(), a);
    }
  }
}
