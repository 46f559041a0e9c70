/** The package's tracer (f2mc8dasm/trace.py) run with the package's
    decoder (f2mc8dasm/disasm.py). The decoder returns an instruction alone,
    so `Disasm.DisassembleWithNextPc` pairs it with the wrapped address
    after it, the `(new_pc, inst)` shape the tracer unpacks. */
module PackageTrace {
  import opened Tables
  import opened Support
  import Disasm
  import Tracing

  /** What a completed trace with the package decoder has found: every
      entry point was decoded, only entry points and addresses of the range
      were, each holds the decoder's output, every in-range successor was
      decoded, the subroutine set is exactly the set of call targets, and
      the popped order reaches every decoded address from the entry points. */
  lemma PackageTraceComplete(rom: seq<Byte>, entryPoints: seq<int>, range: set<int>, traced: set<int>,
                             instructions: map<int, Disasm.Instruction>,
                             subroutines: set<Option<int>>, popped: seq<int>)
    requires Tracing.Explored(rom, Disasm.DisassembleWithNextPc, FlowOf, AddressOf, {}, (set a | a in entryPoints),
                              range, traced, {}, instructions, subroutines, popped)
    requires Tracing.Justified(rom, Disasm.DisassembleWithNextPc, FlowOf, AddressOf, (set a | a in entryPoints), {},
                               instructions, popped)
    ensures forall a | a in entryPoints :: a in instructions
    ensures forall a | a in instructions :: a in entryPoints || a in range
    ensures forall a | a in instructions ::
              Disasm.DisassembleInst(rom, a) == Some(instructions[a])
    ensures forall a | a in instructions ::
              forall s | s in Tracing.Successors(instructions[a].flow, instructions[a].address,
                                                 Disasm.Offset(a, instructions[a].Length())) ::
                s in range ==> s in instructions
    ensures subroutines == set a | a in instructions && instructions[a].flow == SubroutineCall ::
                             instructions[a].address
    ensures ReachedInOrder(entryPoints, instructions, popped)
  {
    Tracing.ExploredComplete(rom, Disasm.DisassembleWithNextPc, FlowOf, AddressOf, {}, (set a | a in entryPoints),
                             range, traced, instructions, subroutines, popped);
    forall a | a in entryPoints
      ensures a in instructions
    {
      assert a in (set x | x in entryPoints);
    }
    PackageTraceReaches(rom, Disasm.DisassembleWithNextPc, FlowOf, AddressOf, entryPoints, instructions, popped);
  }

  /** Every address the tracer can push after a package-decoded
      instruction, its fall-through or its target, lies in 0 .. 0xFFFF. */
  lemma SuccessorsInSpace(rom: seq<Byte>, pc: int)
    requires Disasm.DisassembleWithNextPc(rom, pc).Some?
    ensures var (newPc, inst) := Disasm.DisassembleWithNextPc(rom, pc).value;
      forall s | s in Tracing.Successors(inst.flow, inst.address, newPc) :: 0 <= s < AddressSpace
  {
    var (newPc, inst) := Disasm.DisassembleWithNextPc(rom, pc).value;
    Disasm.AddressInSpace(rom, pc);
    Tracing.SuccessorRules(inst.flow, inst.address, newPc);
  }

  /** With entry points inside the address space, every address the
      package trace can pop lies in 0 .. 0xFFFF, whatever the range. */
  lemma PushedInSpace(rom: seq<Byte>, entryPoints: seq<int>, untraced0: set<int>, a: int)
    requires untraced0 == set x | x in entryPoints
    requires forall x | x in entryPoints :: 0 <= x < AddressSpace
    requires Tracing.Pushed(rom, Disasm.DisassembleWithNextPc, FlowOf, AddressOf, untraced0, a)
    ensures 0 <= a < AddressSpace
  {
    if a !in untraced0 {
      var b :| && Disasm.DisassembleWithNextPc(rom, b).Some?
               && a in Tracing.Successors(FlowOf(Disasm.DisassembleWithNextPc(rom, b).value.1),
                                          AddressOf(Disasm.DisassembleWithNextPc(rom, b).value.1),
                                          Disasm.DisassembleWithNextPc(rom, b).value.0);
      SuccessorsInSpace(rom, b);
    }
  }

  /** A set of addresses that is exactly `rangeStart .. rangeStop - 1` can
      be replaced by those bounds in what the trace found. */
  lemma RangeAsBounds(entryPoints: seq<int>, range: set<int>, rangeStart: int, rangeStop: int,
                      instructions: map<int, Disasm.Instruction>)
    requires forall a :: a in range <==> rangeStart <= a < rangeStop
    requires forall a | a in instructions :: a in entryPoints || a in range
    requires forall a | a in instructions ::
               forall s | s in Tracing.Successors(instructions[a].flow, instructions[a].address,
                                                  Disasm.Offset(a, instructions[a].Length())) ::
                 s in range ==> s in instructions
    ensures forall a | a in instructions :: a in entryPoints || rangeStart <= a < rangeStop
    ensures forall a | a in instructions ::
              forall s | s in Tracing.Successors(instructions[a].flow, instructions[a].address,
                                                 Disasm.Offset(a, instructions[a].Length())) ::
                rangeStart <= s < rangeStop ==> s in instructions
  {
  }

  /** The package's `inst.flow_type`, as the value the tracer is given. */
  function FlowOf(inst: Disasm.Instruction): FlowType
  {
    inst.flow
  }

  /** The package's `inst.address`, as the value the tracer is given. */
  function AddressOf(inst: Disasm.Instruction): Option<int>
  {
    inst.address
  }

  /** `order[i]` is an entry point or a successor of the decoded
      instruction at an earlier `order[j]`, whose next instruction starts
      right after its bytes, wrapping at 0x10000. */
  ghost predicate ReachedBefore(entryPoints: seq<int>, instructions: map<int, Disasm.Instruction>,
                                order: seq<int>, i: int)
  {
    && 0 <= i < |order|
    && (|| order[i] in entryPoints
        || exists j | 0 <= j < i ::
             && order[j] in instructions
             && order[i] in Tracing.Successors(instructions[order[j]].flow, instructions[order[j]].address,
                                               Disasm.Offset(order[j], instructions[order[j]].Length())))
  }

  /** `order` lists the decoded addresses so that each is an entry point or
      a successor of an instruction listed before it: every decoded address
      is reachable from the entry points. */
  ghost predicate ReachedInOrder(entryPoints: seq<int>, instructions: map<int, Disasm.Instruction>,
                                 order: seq<int>)
  {
    && (set a | a in order) == instructions.Keys
    && forall i | 0 <= i < |order| :: ReachedBefore(entryPoints, instructions, order, i)
  }

  /** The order in which the trace popped its addresses shows every decoded
      address reachable from the entry points. */
  lemma PackageTraceReaches(rom: seq<Byte>, decode: (seq<Byte>, int) -> Option<(int, Disasm.Instruction)>,
                            flowOf: Disasm.Instruction -> FlowType,
                            addressOf: Disasm.Instruction -> Option<int>,
                            entryPoints: seq<int>, instructions: map<int, Disasm.Instruction>, popped: seq<int>)
    requires forall a | decode(rom, a).Some? ::
               decode(rom, a).value.0 == Disasm.Offset(a, decode(rom, a).value.1.Length())
    requires forall a | a in instructions :: decode(rom, a).Some? && decode(rom, a).value.1 == instructions[a]
    requires forall inst :: flowOf(inst) == inst.flow && addressOf(inst) == inst.address
    requires (set a | a in popped) == instructions.Keys
    requires Tracing.Justified(rom, decode, flowOf, addressOf, (set a | a in entryPoints), {}, instructions, popped)
    ensures ReachedInOrder(entryPoints, instructions, popped)
  {
    forall i | 0 <= i < |popped|
      ensures ReachedBefore(entryPoints, instructions, popped, i)
    {
      assert Tracing.QueuedBy(rom, decode, flowOf, addressOf, (set a | a in entryPoints), instructions, popped,
                              popped[i], i);
      if popped[i] !in (set a | a in entryPoints) {
        var j :| 0 <= j < i &&
                 popped[i] in Tracing.SuccessorsAt(rom, decode, flowOf, addressOf, instructions, popped[j]);
        assert popped[j] in instructions;
      }
    }
  }

  /** A decoded address that the trace popped was an entry point or an
      address of the range. */
  lemma PoppedFromQueue(popped: seq<int>, traced: set<int>, untraced0: set<int>, range: set<int>,
                        entryPoints: seq<int>, a: int)
    requires (set x | x in popped) == traced - {}
    requires traced - {} <= untraced0 + range
    requires untraced0 == set x | x in entryPoints
    requires a in popped
    ensures a in entryPoints || a in range
  {
    assert a in (set x | x in popped);
    assert a in traced - {};
  }

  /** Traces `rom` from `entryPoints` within `rangeStart .. rangeStop - 1`
      with the package decoder. A failure names an undecodable address
      that is an entry point or lies in the range. On a full 64K image
      with entry points and range inside the address space, the package
      decoder's wrapping means the trace never fails. On success the
      decoded addresses can be listed so that each is an entry point or a
      successor of one listed earlier: nothing unreachable is decoded. */
  method TraceWithPackageDecoder(rom: seq<Byte>, entryPoints: seq<int>, rangeStart: int, rangeStop: int)
    returns (r: Option<(map<int, Disasm.Instruction>, set<Option<int>>)>)
    ensures r.None? ==>
              exists a :: (a in entryPoints || rangeStart <= a < rangeStop) &&
                          Disasm.DisassembleInst(rom, a).None?
    ensures (&& |rom| == AddressSpace
             && (forall a | a in entryPoints :: 0 <= a < AddressSpace)) ==> r.Some?
    ensures r.Some? ==>
              var instructions := r.value.0;
              && (forall a | a in entryPoints :: a in instructions)
              && (forall a | a in instructions :: a in entryPoints || rangeStart <= a < rangeStop)
              && (forall a | a in instructions :: Disasm.DisassembleInst(rom, a) == Some(instructions[a]))
              && (forall a | a in instructions ::
                    forall s | s in Tracing.Successors(instructions[a].flow, instructions[a].address,
                                                       Disasm.Offset(a, instructions[a].Length())) ::
                      rangeStart <= s < rangeStop ==> s in instructions)
              && r.value.1 == (set a | a in instructions && instructions[a].flow == SubroutineCall ::
                                 instructions[a].address)
              && exists order :: ReachedInOrder(entryPoints, instructions, order)
  {
    var queue := new Tracing.TraceQueue(entryPoints, rangeStart, rangeStop);
    var tracer := new Tracing.Tracer(rom, queue);
    ghost var untraced0 := queue.untraced;
    ghost var popped;
    r, popped := tracer.Trace(Disasm.DisassembleWithNextPc, FlowOf, AddressOf);
    if r.Some? {
      PackageTraceComplete(rom, entryPoints, queue.TraceableRange(), queue.traced, r.value.0, r.value.1, popped);
      RangeAsBounds(entryPoints, queue.TraceableRange(), rangeStart, rangeStop, r.value.0);
    } else {
      ghost var a :| && a in popped && Disasm.DisassembleWithNextPc(rom, a).None?
                     && Tracing.Pushed(rom, Disasm.DisassembleWithNextPc, FlowOf, AddressOf, untraced0, a);
      PoppedFromQueue(popped, queue.traced, untraced0, queue.TraceableRange(), entryPoints, a);
      assert Disasm.DisassembleInst(rom, a).None?;
      if |rom| == AddressSpace && (forall a | a in entryPoints :: 0 <= a < AddressSpace) {
        PushedInSpace(rom, entryPoints, untraced0, a);
        Disasm.FullImageDecodes(rom, a);
        assert false;
      }
    }
  }
}
