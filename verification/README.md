# f2mc8dasm core in Dafny

f2mc8dasm is a tracing disassembler for the Fujitsu F2MC-8L microcontroller.
It starts at a set of entry points, decodes instructions and follows jumps,
branches and calls. From that it finds every reachable instruction of a 64K
ROM image. This project models the core of that process and proves
properties of the model:

- **Opcode tables** (`Tables`, from `f2mc8dasm.py`). These are the 256-entry
  opcode table (template, addressing mode, flow type) and the instruction
  length of each addressing mode. The table is split into sixteen rows of
  sixteen entries. `FlowType` uses the package's names. The script's names
  map one to one: `UnconditionalBranch` is `UnconditionalJump`,
  `ConditionalBranch` is `ConditionalJump`, and `IndirectBranch` is
  `IndirectUnconditionalJump`.
- **Package decoder** (`Disasm`, from `f2mc8dasm/disasm.py`). It turns the
  bytes at an address into an `Instruction`. Operand reads and branch
  targets wrap modulo 0x10000. A read past the end of the image is an
  IndexError in the source, and `None` here. Python's negative list indices
  are modelled by `Support.Subscript`.
- **Script decoder and main loop** (`Script`, from `f2mc8dasm.py`). This is
  the older, stand-alone version of the decoder, which does not wrap
  addresses and adds a `disasm_as_bytes` flag. The script's `main` loads
  the image at 0xE000 and traces it from a fixed list of entry points.
  `DecodersAgree` proves that the two decoders agree at every address
  0 <= pc < 0xFFFD, where the package decoder's operand reads do not wrap.
  They succeed together and give the same template, mode, flow, opcode,
  operands, immediate, IXD offset, bit, vector and register, and the same
  next address. Absolute targets read as a byte or a 16-bit word agree
  exactly; relative branch targets agree only modulo 0x10000: the
  script does not reduce a relative target, so `f8 f0` at 0 gives -14
  where the package gives 0xFFF2, and `f8 7f` at 0xFFF0 gives 0x10071
  where the package gives 0x0071. The two records also differ in one
  field each: the script's `disasm_as_bytes` flag and the package's
  `bittest_address`. The bit-test branch's target is the one exception to
  the modulo agreement; it is listed under Findings.
- **Work-list tracer** (`Tracing`, from `f2mc8dasm/trace.py`).
  - `TraceQueue` is a class with an untraced set and a traced set.
  - `Tracer.Trace` is the work-list loop, proved against the ghost
    predicate `Explored`. When the loop ends, every decoded address was
    popped exactly once and every recorded instruction is the decoder's
    output at its address. Every successor in the traceable range was
    decoded by this trace or traced before it. The subroutine set is
    exactly the set of call targets. Nothing unreachable is decoded: the
    ghost predicate `Justified` says that each popped address was an entry
    point or a successor of an instruction popped before it.
  - `PackageTrace.TraceWithPackageDecoder` runs that tracer with the
    package decoder. On a full 64K image, with every entry point inside
    0..0xFFFF, that trace never fails, whatever the traceable range. The
    range needs no bound: every fall-through and target the package
    decoder produces lies in 0..0xFFFF, so an address of the range outside
    it, such as 0x10000 in the `range(start, start + len(rom) + 1)` of
    `f2mc8dasm/command.py:22`, is never pushed. The entry points do need
    the condition: `f2mc8dasm/trace.py:5` does not check them, and an
    entry point such as 0x10000 makes the decoder raise an IndexError.
- **Memory map** (`MemoryMap`, from `f2mc8dasm/memory.py`). `Memory` is a
  class with a right-aligned 64K image and three per-address maps (type,
  stored instruction, annotation) that its methods update in place.

## Model

| member | source | states |
|---|---|---|
| Tables.InstructionLength | f2mc8dasm.py:22-40 | every addressing mode takes 1 to 3 bytes; exactly Illegal, Inherent, Register, Pointer and Vector take 1 byte, and exactly ImmediateWord, Extended, DirectWithImmediateByte, IndexWithImmediateByte and BitDirectWithRelative take 3 |
| Tables.ConditionalJumpOpcodes | f2mc8dasm.py:253-268 | an opcode is a conditional branch if and only if it is one of the bit-test branches 0xB0-0xBF or the relative branches 0xF8-0xFF |
| Tables.SubroutineReturnOpcodes | f2mc8dasm.py:91-109 | only `ret` (0x20) and `reti` (0x30) return from a subroutine |
| Tables.IndirectJumpOpcodes | f2mc8dasm.py:307 | only `jmp @a` (0xE0) and `xchw a, pc` (0xF4) are indirect jumps |
| Tables.CallAndJumpOpcodes | f2mc8dasm.py:92-322 | `jmp EXT` (0x21) is the only unconditional jump, `call EXT` (0x31) the only call, and 0xE8-0xEF (`callv`) exactly the indirect calls |
| Tables.TransferOpcodesHaveTargets | f2mc8dasm.py:53-341 | every jump or call has an Extended operand, and every conditional branch is Relative or BitDirectWithRelative, so each transfer the tracer follows has a decoded target |
| Tables.ImmediateWordOpcodes | f2mc8dasm.py:311-314 | exactly 0xE4-0xE7 take an immediate word |
| Support.ContainsAt | f2mc8dasm/disasm.py:68 | a string that holds `sub` at some position contains it (Python's `in` on strings) |
| Support.NotContains | f2mc8dasm/disasm.py:75 | a string without the first character of `sub` does not contain `sub` |
| Support.Displacement | f2mc8dasm/disasm.py:81-82 | the displacement byte read as two's complement: the result lies in -128..127 and is congruent to the byte modulo 256 |
| Support.LowThreeBits | f2mc8dasm/disasm.py:123 | `opcode & 0b111` is a register, bit or vector number 0..7 |
| Support.BigEndianWord | f2mc8dasm/disasm.py:114-116 | the word built from two operand bytes has the first byte as its high byte and the second as its low byte |
| Disasm.Instruction.Length | f2mc8dasm/disasm.py:35-36 | `len(inst)` is the number of bytes in `all_bytes`, the opcode followed by the operands |
| Disasm.Instruction.AllBytes | f2mc8dasm/disasm.py:60-62 | `all_bytes` is the opcode followed by exactly the operands |
| Disasm.Instruction.StoresImmediateWordInPointer | f2mc8dasm/disasm.py:64-70 | only an immediate-word instruction stores into a pointer register |
| Disasm.Instruction.StoresImmediateWordInA | f2mc8dasm/disasm.py:72-77 | only an immediate-word instruction stores into the accumulator |
| Disasm.ResolveRel | f2mc8dasm/disasm.py:80-83 | a relative target is `pc` plus the signed displacement, reduced into 0..0xFFFF |
| Disasm.ReadOperands | f2mc8dasm/disasm.py:88-94 | the operand loop succeeds exactly when every byte after the opcode, read at a wrapped address, is in the image, and then yields `count` bytes, the k-th read at pc+k modulo 0x10000 |
| Disasm.DisassembleInst | f2mc8dasm/disasm.py:86-150 | decoding succeeds exactly when the opcode and all its operand bytes are readable; the result carries the table entry of its opcode, its length matches the addressing mode, and its bytes are the bytes at pc, pc+1, … modulo 0x10000 |
| Disasm.FieldPresence | f2mc8dasm/disasm.py:105-146 | each derived field (address, immediate, bit-test address, IXD offset, bit, vector, register) is present exactly for the addressing modes that set it |
| Disasm.AddressInSpace | f2mc8dasm/disasm.py:109-146 | every address the decoder derives, a direct byte, an extended word or a wrapped relative target, lies in 0..0xFFFF |
| Disasm.NoOperandFields | f2mc8dasm/disasm.py:105-108 | Illegal, Inherent and Pointer instructions carry no derived field |
| Disasm.OpcodeFieldsAreLowBits | f2mc8dasm/disasm.py:122-139 | register, vector and bit numbers are the opcode's low three bits |
| Disasm.WordOperandsBigEndian | f2mc8dasm/disasm.py:109-116 | an immediate word or extended address is below 0x10000, and its high and low bytes are the two operand bytes in order |
| Disasm.BranchTargets | f2mc8dasm/disasm.py:141-146 | a relative branch targets the address after the instruction plus the signed displacement, modulo 0x10000; a bit-test branch tests the direct address in its first operand and takes its displacement from the second |
| Disasm.ReadOperandsLocal | f2mc8dasm/disasm.py:92-94 | the operand loop depends only on the bytes it reads |
| Disasm.DecodeReadsOnlyItsBytes | f2mc8dasm/disasm.py:86-94 | two images that agree on an instruction's bytes decode it identically |
| Disasm.FullImageDecodes | f2mc8dasm/disasm.py:86-94 | on a full 64K image every address decodes: with wrapping, no read can fail |
| Disasm.StoresNeedImmediateWord | f2mc8dasm/disasm.py:64-77 | only immediate-word instructions store an immediate word in A or in a pointer |
| Disasm.AccumulatorTemplate | f2mc8dasm/disasm.py:73-77 | the template `movw a, #IMW` mentions `a` and none of the pointer registers |
| Disasm.PointerTemplate | f2mc8dasm/disasm.py:64-70 | `movw sp/ix/ep, #IMW` mentions its register and not `a` |
| Disasm.ImmediateWordTemplate | f2mc8dasm.py:311-314 | among the immediate-word templates, only 0xE4's mentions `a`, and the others each mention a pointer register |
| Disasm.ImmediateWordStores | f2mc8dasm/disasm.py:64-77 | for any table entry, `stores_immediate_word_in_a` holds exactly for 0xE4 and `stores_immediate_word_in_pointer` exactly for 0xE5-0xE7 |
| Disasm.RelativeExample | f2mc8dasm/tests/test_disasm.py:69-71 | `fd 05` at 0 is `beq` to 0x0007 |
| Disasm.BitBranchExample | f2mc8dasm/tests/test_disasm.py:65-67 | `b7 aa 08` at 0 is `bbc` testing bit 7 of 0xAA with target 0x000B |
| Disasm.ImmediateWordExample | f2mc8dasm/tests/test_disasm.py:21-23 | `e4 aa bb` is `movw a, #0xaabb` |
| Disasm.ExtendedExample | f2mc8dasm/tests/test_disasm.py:25-27 | `31 aa bb` is `call 0xaabb` |
| Disasm.RegisterExample | f2mc8dasm/tests/test_disasm.py:37-39 | `c8` is `inc r0` |
| Disasm.RegisterWithImmediateExample | f2mc8dasm/tests/test_disasm.py:41-43 | `88 aa` is `mov r0, #0xaa` |
| Disasm.BitDirectExample | f2mc8dasm/tests/test_disasm.py:61-63 | `a0 aa` is `clrb 0xaa:0` |
| Disasm.VectorExample | f2mc8dasm/tests/test_disasm.py:73-75 | `e8` is `callv #0` |
| Disasm.IndexWithImmediateExample | f2mc8dasm/tests/test_disasm.py:57-59 | `86 aa bb` is `mov @ix+0xaa, #0xbb` |
| Disasm.WrappedOperandExample | f2mc8dasm/disasm.py:86-94 | decoding at -1 (the last byte, by Python indexing) reads the operand from address 0 after wrapping |
| Disasm.TruncatedExample | f2mc8dasm/disasm.py:92-93 | a `call` whose second operand byte is past the end of the image fails to decode |
| Tracing.SuccessorRules | f2mc8dasm/trace.py:39-55 | which addresses each flow type pushes: the next address for Continue, conditional branches, calls and vector calls; the target for jumps, branches and calls; nothing else, and nothing for indirect jumps and returns |
| Tracing.TraceQueue.constructor | f2mc8dasm/trace.py:4-7 | the untraced set is the set of entry points, and nothing is traced |
| Tracing.TraceQueue.HasAddresses | f2mc8dasm/trace.py:9-10 | true exactly when an address is waiting to be traced |
| Tracing.TraceQueue.PushAddress | f2mc8dasm/trace.py:12-15 | an address in the traceable range that was not traced yet joins the untraced set; nothing else changes |
| Tracing.TraceQueue.PopAddress | f2mc8dasm/trace.py:17-22 | an empty queue gives None and is unchanged; otherwise one untraced address moves to the traced set and is returned |
| Tracing.ExploreStep | f2mc8dasm/trace.py:33-55 | one iteration keeps the exploration invariant and the reachability invariant `Justified`, and strictly shrinks the untraced set together with the not-yet-traced part of the range, so the loop terminates |
| Tracing.QueuedByStable | f2mc8dasm/trace.py:33-36 | a reason an address was queued stays valid when the loop records one more, not yet decoded, address |
| Tracing.ReachStep | f2mc8dasm/trace.py:33-55 | after one iteration, every popped address is still an entry point or a successor of an instruction popped before it, and every address now waiting is an entry point or a successor of a popped instruction |
| Tracing.WaitingWasPushed | f2mc8dasm/trace.py:33-55 | an address waiting in the queue was queued at the start or is a successor of an instruction the decoder returned |
| Tracing.ExploredComplete | f2mc8dasm/trace.py:33-59 | when the queue is empty, every entry point was decoded, each decoded address holds the decoder's output, every in-range successor was decoded or traced before, and the subroutine set is exactly the set of targets of the decoded calls |
| Tracing.Tracer.constructor | f2mc8dasm/trace.py:25-27 | the tracer keeps the image and the queue it is given |
| Tracing.Tracer.PushSuccessors | f2mc8dasm/trace.py:39-55 | the untraced set gains exactly the in-range, untraced successors of the instruction |
| Tracing.Tracer.Trace | f2mc8dasm/trace.py:29-59 | every address popped is popped once and ends up traced; a decode failure is an error at an address that was queued at the start or pushed as a successor of a decoded instruction; otherwise the queue is drained, the returned instructions and subroutine set satisfy the exploration invariant, and each popped address is an entry point or a successor of an instruction popped before it, so only reachable addresses are decoded |
| Script.ResolveRel | f2mc8dasm.py:397-400 | the script's relative target is `pc` plus the signed displacement, not reduced, so it stays within 128 bytes of `pc` |
| Script.Instruction.AllBytes | f2mc8dasm.py:366-368 | `all_bytes` is the opcode followed by exactly the operands |
| Script.ReadOperands | f2mc8dasm.py:409-412 | the script's operand loop reads the bytes from pc on without wrapping, and fails exactly when one of them is not in the image |
| Script.DisassembleInst | f2mc8dasm.py:403-468 | decoding succeeds exactly when the opcode and its operands are readable; it returns the address just past the instruction together with the instruction, whose bytes are the bytes at pc, pc+1, … |
| Script.DisasmAsBytesRule | f2mc8dasm.py:429-464 | an instruction is flagged to be listed as bytes exactly when it is a relative or bit-test branch, or an extended instruction whose high address byte is zero |
| Script.ResolveRelLeavesAddressSpace | f2mc8dasm.py:397-400 | the script's branch targets can fall outside 0..0xFFFF, at -2 and at 0x1007D |
| Script.BitBranchUsesTestedAddress | f2mc8dasm.py:461-464 | the script takes a bit-test branch's displacement from its first operand, the tested direct address |
| Script.BitBranchTargetFinding | f2mc8dasm.py:461-464 | `b7 aa 08` at 0 gets target -83 from the script and 0x000B from the package |
| Script.OperandReadsAgree | f2mc8dasm.py:409-412 | away from the end of the address space, the two operand loops read the same bytes |
| Script.DeriveFieldsAgree | f2mc8dasm.py:421-464 | from the same opcode and operands, the two decoders derive the same fields, with the package's addresses reduced modulo 0x10000 |
| Script.DecodersAgree | f2mc8dasm.py:403-468 | for pc below 0xFFFD the two decoders succeed together and give the same template, mode, flow, opcode, operands and fields, and the script's next pc is pc plus the package's length; addresses agree modulo 0x10000 except for the bit-test branch |
| Script.LoadImage | f2mc8dasm.py:494-495 | the script's ROM is 0xE000 zero bytes followed by the image file |
| Script.EntryPointsInRange | f2mc8dasm.py:497-505 | every fixed entry point lies in the traceable range 0xE000..0xFFFF |
| Script.MainTraceComplete | f2mc8dasm.py:510-532 | a completed trace has decoded every entry point, only addresses in 0xE000..0xFFFF, and at each the script decoder's output; every successor in 0xE000..0xFFFF was decoded, and the subroutine set is exactly the set of call targets |
| Script.NextPcFollows | f2mc8dasm.py:409-468 | the script's returned next address is `pc` plus the length of the decoded instruction's addressing mode |
| Script.MainTraceReaches | f2mc8dasm.py:510-532 | the order in which the main loop popped its addresses lists every decoded address, each an entry point or a successor of one popped earlier |
| Script.MainTraceResult | f2mc8dasm.py:505-532 | with the script decoder, a completed trace of `main` decoded the entry points and only addresses of 0xE000..0xFFFF, each holding the decoder's output, closed under in-range successors, with the subroutine set exactly the call targets, and the popped order reaches every decoded address from the entry points |
| Script.PoppedInRange | f2mc8dasm.py:497-511 | every address the main loop pops lies in 0xE000..0xFFFF, since the entry points do and only in-range addresses are pushed |
| Script.TraceImage | f2mc8dasm.py:493-532 | tracing an image fails only when some address in 0xE000..0xFFFF cannot be decoded; otherwise it returns instructions for all entry points, all in range, each the decoding of the loaded ROM at its address, closed under in-range successors, with the subroutine set exactly the call targets, and listable in an order where each is an entry point or a successor of an earlier one (nothing unreachable) |
| PackageTrace.PoppedFromQueue | f2mc8dasm/trace.py:4-22 | every address the tracer pops was an entry point or lay in the traceable range |
| PackageTrace.PackageTraceComplete | f2mc8dasm/trace.py:29-59 | a completed trace with the package decoder decoded every entry point and otherwise only in-range addresses, each holding the package decoder's output; every in-range successor, using the wrapped next address, was decoded; the subroutine set is exactly the call targets; the popped order reaches every decoded address from the entry points |
| PackageTrace.PackageTraceReaches | f2mc8dasm/trace.py:33-55 | the popped order lists every decoded address, each an entry point or a successor, with the wrapped next address, of one popped earlier |
| PackageTrace.SuccessorsInSpace | f2mc8dasm/trace.py:39-55 | every address the tracer pushes after a package-decoded instruction lies in 0..0xFFFF |
| PackageTrace.PushedInSpace | f2mc8dasm/trace.py:4-22 | with entry points in the address space, every address the package trace can pop lies in 0..0xFFFF, whatever the traceable range |
| PackageTrace.TraceWithPackageDecoder | f2mc8dasm/trace.py:29-59 | the tracer run with the package decoder fails only on an undecodable entry point or in-range address, never fails on a full 64K image whose entry points lie in the address space (for any range, including command.py's, which stops at 0x10001), and otherwise returns the closed, exact result above, whose addresses can be listed so that each is an entry point or a successor of an earlier one |
| MemoryMap.Image | f2mc8dasm/memory.py:4 | the image is 64K long, zero below the ROM, with the ROM's last byte at 0xFFFF |
| MemoryMap.Range | f2mc8dasm/memory.py:17 | Python's `range`: elements step from `start` by `step` and stay on the near side of `stop`, it is empty exactly when `start` is already past `stop`, and it stops at the first element past `stop` |
| MemoryMap.Memory.constructor | f2mc8dasm/memory.py:3-12 | every address 0..0xFFFF starts as Data, with no instruction and no annotation, and the image is the right-aligned ROM |
| MemoryMap.Memory.GetItem | f2mc8dasm/memory.py:19 | reading an integer address: negative addresses count from the end, and anything outside the image is an error |
| MemoryMap.Memory.ReadAll | f2mc8dasm/memory.py:18 | the bytes at a list of addresses, failing exactly when one address is outside the image |
| MemoryMap.Memory.GetSlice | f2mc8dasm/memory.py:14-18 | a slice reads the addresses of `range(start or 0, stop, step or 1)`; it succeeds exactly when the step is not zero, a stop is given and every one of those addresses is inside the image |
| MemoryMap.Memory.SliceOfSpan | f2mc8dasm/memory.py:16-18 | a unit-step slice within the image is the image's subsequence between its bounds |
| MemoryMap.Memory.Length | f2mc8dasm/memory.py:21-22 | `len(memory)` is always 0x10000 |
| MemoryMap.Memory.SetInstruction | f2mc8dasm/memory.py:26-33 | stores the instruction, marks its first byte as a start and the rest as continuations, overwriting whatever was there; no other address, stored instruction or annotation changes |
| MemoryMap.Memory.GetInstruction | f2mc8dasm/memory.py:35-36 | the stored entry, which at an instruction start is always an instruction |
| MemoryMap.Memory.StartAddressesOrdered | f2mc8dasm/memory.py:38-41 | the addresses `iter_instructions` visits ascend strictly and are exactly the instruction starts from `start` to the end of the image |
| MemoryMap.Memory.IterInstructions | f2mc8dasm/memory.py:38-41 | yields, in order, the stored instruction at each of those start addresses |
| MemoryMap.Memory.IsData | f2mc8dasm/memory.py:45-52 | an address is data exactly when it is neither an instruction start nor a continuation |
| MemoryMap.Memory.IsInstructionStart | f2mc8dasm/memory.py:48-52 | no address is both a start and a continuation |
| MemoryMap.Memory.IsInstructionContinuation | f2mc8dasm/memory.py:51-52 | a continuation byte is neither an instruction start nor data |
| MemoryMap.Memory.AnnotateJumpTarget | f2mc8dasm/memory.py:56-57 | the annotation at the address becomes JumpTarget, replacing any earlier one; nothing else changes |
| MemoryMap.Memory.AnnotateCallTarget | f2mc8dasm/memory.py:59-60 | the annotation becomes CallTarget; nothing else changes |
| MemoryMap.Memory.AnnotateVector | f2mc8dasm/memory.py:62-63 | the annotation becomes Vector; nothing else changes |
| MemoryMap.Memory.IsJumpTarget | f2mc8dasm/memory.py:65-72 | annotations are single-valued: a jump target is neither a call target nor a vector |
| MemoryMap.Memory.IsCallTarget | f2mc8dasm/memory.py:68-72 | a call target is not a vector |
| MemoryMap.Memory.IsVector | f2mc8dasm/memory.py:71-72 | a vector is neither a jump target nor a call target |
| MemoryMap.InstructionSpanExample | f2mc8dasm/tests/test_symbols.py:34-38 | a three-byte `call` stored at 0xF000 makes 0xF000 a start and 0xF001 a continuation, and `get_instruction(0xF000)` returns it |
| MemoryMap.JumpThenCallExample | f2mc8dasm/tests/test_symbols.py:23-27 | annotating a jump target and then a call target leaves only the call target |
| MemoryMap.OverwrittenStartExample | f2mc8dasm/memory.py:26-41 | an instruction start that a later, longer instruction covers is no longer yielded, and iteration from 0xF000 yields the covering instruction first |

## Left out

- Text output is not modelled: `Instruction.__str__`, its format table, and the printing and file reading in the script's `main`. `Script.TraceImage` takes the image file's bytes as a parameter.
- The `affected_flags` field of the package's `Instruction` is not modelled. Nothing in the core reads it.
- `f2mc8dasm/tables.py` is not part of this model. The package decoder and tracer use the opcode and length tables of `f2mc8dasm.py` under the package's flow-type names.
- `listing.py`, `command.py`, `symbols.py` and `setup.py` are not part of this model.
- `disassemble_func` is a parameter of `Tracing.Tracer.Trace`. The package decoder returns the instruction alone, so `PackageTrace.TraceWithPackageDecoder` passes `Disasm.DisassembleWithNextPc`, which pairs it with the wrapped address after it as the `(new_pc, inst)` pair the tracer unpacks. `f2mc8dasm/command.py:23-24` passes `disassemble_inst` itself, but to a newer `Tracer(memory, entry_points, traceable_range)` interface that `f2mc8dasm/trace.py` does not have; the pairing is this model's bridge between the two.
- Tracing.TraceQueue.constructor: takes the range as `rangeStart` and `rangeStop`. `f2mc8dasm/trace.py:7` and `:13` accept any container that supports `in`. The model uses the interval `rangeStart .. rangeStop - 1`, and both callers in the repository pass `range(a, b)` (`f2mc8dasm.py:505`, `f2mc8dasm/command.py:22`).
- Exceptions are modelled as `None`: an IndexError while decoding, an IndexError or ValueError while slicing, and the resulting failure of a trace. A KeyError on a missing dictionary key is a precondition of the memory queries instead, because the source does not handle it either.
- `MemoryMap.Memory.constructor`: a ROM longer than 0x10000 bytes is a precondition. In the source, the padding length goes negative and Python raises a ValueError.
- The `raise NotImplementedError()` branches of both decoders and of the tracer's dispatch are not modelled. `AddressMode` and `FlowType` are closed datatypes, so those branches cannot be reached.
- `Tracing.TraceQueue.PopAddress`: which element Python's `set.pop()` removes is unspecified. The model picks an arbitrary element, so every property is proved for any choice.
- `Tracing.Tracer.Trace`: `popped`, the order in which addresses were visited, is a ghost out-parameter. It is a proof device, not a value the source returns.
- Bit masks are written as arithmetic on byte values, for example `& 0xFFFF` as `% 0x10000` and `& 0b111` as `% 8`.
- `__init__(**kwargs)` of the package's `Instruction`, which rejects unknown attribute names, is not modelled. The datatype has a fixed set of fields.
- MemoryMap.Memory.IterInstructions: `iter_instructions(address=0)` is a generator with a default argument. The model takes the start address explicitly and returns the whole list at call time, so it does not capture generator laziness: the source's generator would see changes made to the memory between two of its steps.
- `MemoryMap.Memory`: every address starts as Data. `set_instruction` overwrites an occupied span. Each address holds one annotation.
- `f2mc8dasm/tests/test_trace.py` exercises an older `TraceQueue` interface (`push`, `pop`, `__len__`, a constructor without arguments). The model follows the interface of `f2mc8dasm/trace.py`.

## Findings

| source | as written | input that shows it | evidently intended | confidence | as-written member | corrected member |
|---|---|---|---|---|---|---|
| f2mc8dasm.py:461-464 | the script's bit-test branch takes its displacement from `operands[0]`, which is the tested direct address | `b7 aa 08` at 0: the script gives target -83 (0xAA read as a displacement from 3), where the package and its test give 0x000B | the displacement is `operands[1]` and the tested address is `operands[0]`, as in f2mc8dasm/disasm.py:143-146 | high; not executed | Script.BitBranchTargetFinding | Disasm.BranchTargets |
