/** The memory map of the package (f2mc8dasm/memory.py): a 64K byte image
    with three per-address dictionaries that the tracer and the listing
    share, namely the location type, the stored instruction and the flow
    annotation. */
module MemoryMap {
  import opened Tables
  import opened Support
  import Disasm

  /** What occupies an address: plain data, the first byte of an
      instruction, or one of its operand bytes. */
  datatype LocationType = Data | InstructionStart | InstructionContinuation

  /** How control flow reaches an address. One value per address: a later
      annotation replaces an earlier one. */
  datatype LocationAnnotation = Unknown | JumpTarget | CallTarget | Vector

  /** The image a ROM of at most 64K occupies: right-aligned so that its
      last byte sits at 0xFFFF, with zero bytes below it. */
  function Image(rom: seq<Byte>): (contents: seq<Byte>)
    requires |rom| <= AddressSpace
    ensures |contents| == AddressSpace
    ensures forall a :: 0 <= a < AddressSpace - |rom| ==> contents[a] == 0
    ensures forall i :: 0 <= i < |rom| ==> contents[AddressSpace - |rom| + i] == rom[i]
  {
    seq(AddressSpace - |rom|, _ => 0) + rom
  }

  /** Python's `range(start, stop, step)` for a non-zero step. */
  function Range(start: int, stop: int, step: int): (r: seq<int>)
    requires step != 0
    ensures forall i :: 0 <= i < |r| ==> r[i] == start + i * step
    ensures forall x :: x in r ==> if step > 0 then start <= x < stop else stop < x <= start
    ensures |r| == 0 <==> (if step > 0 then stop <= start else start <= stop)
    ensures |r| > 0 ==> if step > 0 then stop <= r[|r| - 1] + step else r[|r| - 1] + step <= stop
    ensures step == 1 ==> |r| == if start < stop then stop - start else 0
    decreases if step > 0 then stop - start else start - stop
  {
    if (step > 0 && stop <= start) || (step < 0 && start <= stop) then []
    else [start] + Range(start + step, stop, step)
  }

  class Memory {
    const contents: seq<Byte>
    var instructions: map<int, Option<Disasm.Instruction>>
    var types: map<int, LocationType>
    var annotations: map<int, LocationAnnotation>

    /** Every address of the 64K space has an entry in each dictionary,
        and every instruction start has a stored instruction. */
    ghost predicate Valid()
      reads this
    {
      && |contents| == AddressSpace
      && (forall a :: 0 <= a < AddressSpace ==>
            a in instructions && a in types && a in annotations)
      && (forall a :: a in types && types[a] == InstructionStart ==>
            a in instructions && instructions[a].Some?)
    }

    /** A ROM longer than 64K makes the zero padding's length negative,
        which the source rejects with an error. */
    constructor (rom: seq<Byte>)
      requires |rom| <= AddressSpace
      ensures Valid()
      ensures contents == Image(rom)
      ensures forall a :: a in instructions <==> 0 <= a < AddressSpace
      ensures forall a :: a in types <==> 0 <= a < AddressSpace
      ensures forall a :: a in annotations <==> 0 <= a < AddressSpace
      ensures forall a :: a in instructions ==> instructions[a] == None
      ensures forall a :: a in types ==> types[a] == Data
      ensures forall a :: a in annotations ==> annotations[a] == Unknown
    {
      contents := Image(rom);
      instructions := map[];
      types := map[];
      annotations := map[];
      new;
      var address := 0;
      while address < |contents|
        invariant 0 <= address <= AddressSpace
        invariant forall a :: a in instructions <==> 0 <= a < address
        invariant forall a :: a in types <==> 0 <= a < address
        invariant forall a :: a in annotations <==> 0 <= a < address
        invariant forall a :: a in instructions ==> instructions[a] == None
        invariant forall a :: a in types ==> types[a] == Data
        invariant forall a :: a in annotations ==> annotations[a] == Unknown
      {
        instructions := instructions[address := None];
        types := types[address := Data];
        annotations := annotations[address := Unknown];
        address := address + 1;
      }
    }

    /** `memory[address]` for an integer: negative addresses count from
        the end, and an address outside the image is an IndexError. */
    function GetItem(address: int): (b: Option<Byte>)
      ensures b.Some? <==> -|contents| <= address < |contents|
      ensures 0 <= address < |contents| ==> b == Some(contents[address])
      ensures -|contents| <= address < 0 ==> b == Some(contents[|contents| + address])
    {
      Subscript(contents, address)
    }

    /** The bytes at a list of addresses, or None when one of them is
        outside the image. */
    function ReadAll(addresses: seq<int>): (r: Option<seq<Byte>>)
      ensures r.Some? <==> forall i :: 0 <= i < |addresses| ==> GetItem(addresses[i]).Some?
      ensures r.Some? ==> |r.value| == |addresses|
      ensures r.Some? ==> forall i :: 0 <= i < |addresses| ==> GetItem(addresses[i]) == Some(r.value[i])
    {
      if |addresses| == 0 then Some([])
      else
        match GetItem(addresses[0])
        case None => None
        case Some(b) =>
          match ReadAll(addresses[1..])
          case None => None
          case Some(rest) => Some([b] + rest)
    }

    /** `memory[start:stop:step]`: the bytes at `range(start, stop, step)`,
        a missing start meaning 0 and a missing step meaning 1. A zero step,
        a missing stop or an address outside the image is an error. */
    function GetSlice(start: Option<int>, stop: Option<int>, step: Option<int>): (r: Option<seq<Byte>>)
      ensures (step == Some(0) || stop.None?) ==> r.None?
      ensures r.Some? <==>
        && step != Some(0) && stop.Some?
        && var addresses := Range(if start.None? then 0 else start.value, stop.value,
                                  if step.None? then 1 else step.value);
           forall i :: 0 <= i < |addresses| ==> GetItem(addresses[i]).Some?
      ensures r.Some? ==>
        var addresses := Range(if start.None? then 0 else start.value, stop.value,
                               if step.None? then 1 else step.value);
        && |r.value| == |addresses|
        && forall i :: 0 <= i < |addresses| ==> GetItem(addresses[i]) == Some(r.value[i])
    {
      var from := if start.None? then 0 else start.value;
      var stride := if step.None? then 1 else step.value;
      if stride == 0 || stop.None? then None
      else ReadAll(Range(from, stop.value, stride))
    }

    /** A slice with unit step inside the image is the subsequence of the
        image between its bounds. */
    lemma SliceOfSpan(start: int, stop: int)
      requires 0 <= start <= stop <= |contents|
      ensures GetSlice(Some(start), Some(stop), None) == Some(contents[start..stop])
    {
      var addresses := Range(start, stop, 1);
      assert |addresses| == stop - start;
      assert forall i :: 0 <= i < |addresses| ==> addresses[i] == start + i;
      assert forall i :: 0 <= i < |addresses| ==> GetItem(addresses[i]).Some?;
      assert GetSlice(Some(start), Some(stop), None) == ReadAll(addresses);
      var r := ReadAll(addresses).value;
      assert |r| == stop - start;
      forall i | 0 <= i < |r|
        ensures r[i] == contents[start..stop][i]
      {
        assert GetItem(addresses[i]) == Some(r[i]);
      }
      assert r == contents[start..stop];
    }

    /** `len(memory)`. */
    function Length(): (n: nat)
      requires Valid()
      reads this
      ensures n == AddressSpace
    {
      |contents|
    }

    /** Stores `inst` at `address` and marks its bytes: the first as an
        instruction start, the rest as continuations. Whatever the span
        held before is overwritten, and nothing outside it changes. */
    method SetInstruction(address: int, inst: Disasm.Instruction)
      requires Valid()
      modifies this
      ensures Valid()
      ensures instructions == old(instructions)[address := Some(inst)]
      ensures annotations == old(annotations)
      ensures forall a :: a in types <==> a in old(types) || address <= a < address + inst.Length()
      ensures address in types && types[address] == InstructionStart
      ensures forall a :: address < a < address + inst.Length() ==> types[a] == InstructionContinuation
      ensures forall a :: a in old(types) && !(address <= a < address + inst.Length()) ==>
                types[a] == old(types)[a]
    {
      instructions := instructions[address := Some(inst)];
      for i := 0 to inst.Length()
        invariant instructions == old(instructions)[address := Some(inst)]
        invariant annotations == old(annotations)
        invariant forall a :: a in types <==> a in old(types) || address <= a < address + i
        invariant forall a :: address <= a < address + i ==>
                    types[a] == if a == address then InstructionStart else InstructionContinuation
        invariant forall a :: a in old(types) && !(address <= a < address + i) ==>
                    types[a] == old(types)[a]
      {
        var locType := if i == 0 then InstructionStart else InstructionContinuation;
        types := types[address + i := locType];
      }
    }

    /** The instruction stored at `address`; None when none was stored,
        which never happens at an instruction start. An address without an
        entry is a KeyError in the source. */
    function GetInstruction(address: int): (inst: Option<Disasm.Instruction>)
      requires address in instructions
      reads this
      ensures Valid() && address in types && types[address] == InstructionStart ==> inst.Some?
    {
      instructions[address]
    }

    /** The addresses from `start` to the end of the image that are
        instruction starts, in ascending order. */
    function StartAddresses(start: int): seq<int>
      requires forall a :: start <= a < |contents| ==> a in types
      reads this
      decreases |contents| - start
    {
      if |contents| <= start then []
      else if types[start] == InstructionStart then [start] + StartAddresses(start + 1)
      else StartAddresses(start + 1)
    }

    /** The start addresses from `start` on are strictly ascending, and
        they are exactly the instruction starts at or after `start`. */
    lemma {:induction false} StartAddressesOrdered(start: int)
      requires forall a :: start <= a < |contents| ==> a in types
      ensures var addresses := StartAddresses(start);
        && (forall i :: 0 <= i < |addresses| ==> start <= addresses[i])
        && (forall i, j :: 0 <= i < j < |addresses| ==> addresses[i] < addresses[j])
        && (forall a :: a in addresses <==>
              start <= a < |contents| && a in types && types[a] == InstructionStart)
      decreases |contents| - start
    {
      if start < |contents| {
        StartAddressesOrdered(start + 1);
      }
    }

    /** `iter_instructions(start)`: the stored instructions at the
        instruction starts from `start` on, in ascending address order. */
    method IterInstructions(start: int) returns (insts: seq<Disasm.Instruction>)
      requires Valid()
      requires forall a :: start <= a < |contents| ==> a in types
      ensures |insts| == |StartAddresses(start)|
      ensures forall i :: 0 <= i < |insts| ==>
                StartAddresses(start)[i] in instructions &&
                instructions[StartAddresses(start)[i]] == Some(insts[i])
    {
      insts := [];
      ghost var seen: seq<int> := [];
      var a := start;
      while a < |contents|
        invariant start <= a
        invariant StartAddresses(start) == seen + StartAddresses(a)
        invariant |insts| == |seen|
        invariant forall i :: 0 <= i < |seen| ==> seen[i] in instructions
        invariant forall i :: 0 <= i < |seen| ==> instructions[seen[i]] == Some(insts[i])
        decreases |contents| - a
      {
        if types[a] == InstructionStart {
          assert StartAddresses(a) == [a] + StartAddresses(a + 1);
          insts := insts + [instructions[a].value];
          seen := seen + [a];
        } else {
          assert StartAddresses(a) == StartAddresses(a + 1);
        }
        a := a + 1;
      }
    }

    /** Exactly one of the three type queries holds at an address. */
    predicate IsData(address: int): (b: bool)
      requires address in types
      reads this
      ensures b <==> !IsInstructionStart(address) && !IsInstructionContinuation(address)
    {
      types[address] == Data
    }

    predicate IsInstructionStart(address: int): (b: bool)
      requires address in types
      reads this
      ensures b ==> !IsInstructionContinuation(address)
    {
      types[address] == InstructionStart
    }

    predicate IsInstructionContinuation(address: int): (b: bool)
      requires address in types
      reads this
      ensures b ==> types[address] != InstructionStart && types[address] != Data
    {
      types[address] == InstructionContinuation
    }

    method AnnotateJumpTarget(address: int)
      requires Valid()
      modifies this
      ensures Valid()
      ensures annotations == old(annotations)[address := JumpTarget]
      ensures types == old(types) && instructions == old(instructions)
    {
      annotations := annotations[address := JumpTarget];
    }

    method AnnotateCallTarget(address: int)
      requires Valid()
      modifies this
      ensures Valid()
      ensures annotations == old(annotations)[address := CallTarget]
      ensures types == old(types) && instructions == old(instructions)
    {
      annotations := annotations[address := CallTarget];
    }

    method AnnotateVector(address: int)
      requires Valid()
      modifies this
      ensures Valid()
      ensures annotations == old(annotations)[address := LocationAnnotation.Vector]
      ensures types == old(types) && instructions == old(instructions)
    {
      annotations := annotations[address := LocationAnnotation.Vector];
    }

    /** Annotations are single-valued: at most one of the three
        annotation queries holds at an address. */
    predicate IsJumpTarget(address: int): (b: bool)
      requires address in annotations
      reads this
      ensures b ==> !IsCallTarget(address) && !IsVector(address)
    {
      annotations[address] == JumpTarget
    }

    predicate IsCallTarget(address: int): (b: bool)
      requires address in annotations
      reads this
      ensures b ==> !IsVector(address)
    {
      annotations[address] == CallTarget
    }

    predicate IsVector(address: int): (b: bool)
      requires address in annotations
      reads this
      ensures b ==> annotations[address] != JumpTarget && annotations[address] != CallTarget
    {
      annotations[address] == LocationAnnotation.Vector
    }
  }

  /** A three-byte `call` at 0xF000 marks 0xF000 as a start and 0xF001 as a
      continuation, and it is stored where it was put. */
  method InstructionSpanExample()
    returns (length: nat, start: bool, continuation: bool, stored: Option<Disasm.Instruction>)
    ensures length == 3 && start && continuation
    ensures stored == Some(Disasm.Instruction("call EXT", Extended, SubroutineCall, 0x31, [0xAA, 0xBB],
                                              Some(0xAABB), None, None, None, None, None, None))
  {
    var mem := new Memory(seq(AddressSpace, _ => 0));
    var inst := Disasm.Instruction("call EXT", Extended, SubroutineCall, 0x31, [0xAA, 0xBB],
                                   Some(0xAABB), None, None, None, None, None, None);
    length := inst.Length();
    mem.SetInstruction(0xF000, inst);
    start := mem.IsInstructionStart(0xF000);
    continuation := mem.IsInstructionContinuation(0xF001);
    stored := mem.GetInstruction(0xF000);
  }

  /** A later annotation replaces an earlier one: after marking a jump
      target and then a call target, only the call target holds. */
  method JumpThenCallExample() returns (isJump: bool, isCall: bool)
    ensures !isJump && isCall
  {
    var mem := new Memory(seq(AddressSpace, _ => 0));
    mem.AnnotateJumpTarget(0xF000);
    mem.AnnotateCallTarget(0xF000);
    isJump := mem.IsJumpTarget(0xF000);
    isCall := mem.IsCallTarget(0xF000);
  }

  /** A one-byte instruction at 0xF001 that a three-byte instruction at
      0xF000 then covers is no longer an instruction start, so iterating
      from 0xF000 yields the covering instruction first and never the
      covered one. */
  method OverwrittenStartExample()
    returns (first: Option<Disasm.Instruction>, coveredYielded: bool)
    ensures first == Some(Disasm.Instruction("call EXT", Extended, SubroutineCall, 0x31, [0xAA, 0xBB],
                                             Some(0xAABB), None, None, None, None, None, None))
    ensures !coveredYielded
  {
    var mem := new Memory(seq(AddressSpace, _ => 0));
    var inc := Disasm.Instruction("inc rREG", Register, Continue, 0xC8, [],
                                  None, None, None, None, None, None, Some(0));
    var call := Disasm.Instruction("call EXT", Extended, SubroutineCall, 0x31, [0xAA, 0xBB],
                                   Some(0xAABB), None, None, None, None, None, None);
    mem.SetInstruction(0xF001, inc);
    mem.SetInstruction(0xF000, call);
    var insts := mem.IterInstructions(0xF000);
    var starts := mem.StartAddresses(0xF000);
    mem.StartAddressesOrdered(0xF000);
    assert 0xF000 in starts;
    assert starts[0] == 0xF000;
    first := if |insts| == 0 then None else Some(insts[0]);
    coveredYielded := 0xF001 in starts;
  }
}
