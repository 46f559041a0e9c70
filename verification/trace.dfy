/** The worklist tracer (f2mc8dasm/trace.py, and the same queue in
    f2mc8dasm.py): addresses still to decode wait in an untraced set, decoded
    ones move to a traced set, and each decoded instruction pushes the
    addresses control can reach next. */
module Tracing {
  import opened Tables
  import opened Support

  /** The addresses control can reach after an instruction with flow type
      `flow`, branch or call target `address`, whose successor in memory
      starts at `newPc`. A target of None names no address: the source's
      `None in range(...)` is False, so nothing is pushed for it. */
  function Successors(flow: FlowType, address: Option<int>, newPc: int): seq<int>
  {
    var target := if address.Some? then [address.value] else [];
    match flow
    case Continue => [newPc]
    case UnconditionalJump => target
    case ConditionalJump => target + [newPc]
    case SubroutineCall => target + [newPc]
    case IndirectUnconditionalJump => []
    case IndirectSubroutineCall => [newPc]
    case SubroutineReturn => []
  }

  /** The successor rule per flow type: fall-through for Continue,
      conditional jumps and both kinds of call; the target for jumps and
      direct calls; nothing after an indirect jump or a return. */
  lemma SuccessorRules(flow: FlowType, address: Option<int>, newPc: int)
    ensures flow in {Continue, ConditionalJump, SubroutineCall, IndirectSubroutineCall} ==>
              newPc in Successors(flow, address, newPc)
    ensures flow in {UnconditionalJump, ConditionalJump, SubroutineCall} && address.Some? ==>
              address.value in Successors(flow, address, newPc)
    ensures forall s :: s in Successors(flow, address, newPc) ==>
              (s == newPc && flow in {Continue, ConditionalJump, SubroutineCall, IndirectSubroutineCall}) ||
              (address == Some(s) && flow in {UnconditionalJump, ConditionalJump, SubroutineCall})
    ensures flow in {IndirectUnconditionalJump, SubroutineReturn} ==> Successors(flow, address, newPc) == []
  {
  }

  /** TraceQueue: the untraced and traced address sets and the range
      outside which pushed addresses are ignored. */
  class TraceQueue {
    var untraced: set<int>
    var traced: set<int>
    const rangeStart: int
    const rangeStop: int

    /** `address in range(rangeStart, rangeStop)`. */
    predicate InRange(address: int)
    {
      rangeStart <= address < rangeStop
    }

    /** The addresses `InRange` accepts, as a set; the `InRange` term
        gives the comprehension its trigger. */
    ghost function TraceableRange(): (range: set<int>)
      ensures forall a :: a in range <==> rangeStart <= a < rangeStop
    {
      set a | rangeStart <= a < rangeStop && InRange(a)
    }

    /** No address is waiting and done at once. */
    ghost predicate Valid()
      reads this
    {
      untraced !! traced
    }

    /** The entry points are queued as given, without a range check. */
    constructor (entryPoints: seq<int>, rangeStart: int, rangeStop: int)
      ensures Valid()
      ensures untraced == (set a | a in entryPoints) && traced == {}
      ensures this.rangeStart == rangeStart && this.rangeStop == rangeStop
    {
      untraced := set a | a in entryPoints;
      traced := {};
      this.rangeStart := rangeStart;
      this.rangeStop := rangeStop;
    }

    method HasAddresses() returns (b: bool)
      ensures b <==> untraced != {}
    {
      b := |untraced| != 0;
    }

    /** Queues `address` when it lies in the range and has not been traced. */
    method PushAddress(address: int)
      requires Valid()
      modifies this
      ensures Valid() && traced == old(traced)
      ensures untraced == if InRange(address) && address !in traced then old(untraced) + {address}
                          else old(untraced)
    {
      if InRange(address) {
        if address !in traced {
          untraced := untraced + {address};
        }
      }
    }

    /** Moves some untraced address to the traced set and returns it; None
        when nothing is waiting. Which address is taken is not specified
        (Python's `set.pop`). */
    method PopAddress() returns (address: Option<int>)
      requires Valid()
      modifies this
      ensures Valid()
      ensures address == None <==> old(untraced) == {}
      ensures address == None ==> untraced == old(untraced) && traced == old(traced)
      ensures address.Some? ==>
                && address.value in old(untraced)
                && untraced == old(untraced) - {address.value}
                && traced == old(traced) + {address.value}
    {
      if untraced != {} {
        NonEmptyHasMember(untraced);
        var picked :| picked in untraced;
        untraced := untraced - {picked};
        traced := traced + {picked};
        return Some(picked);
      }
      return None;
    }
  }

  /** The addresses the decoded instruction at `a` hands on, none when `a`
      was not decoded. */
  ghost function SuccessorsAt<I>(rom: seq<Byte>, disassemble: (seq<Byte>, int) -> Option<(int, I)>,
                                 flowOf: I -> FlowType, addressOf: I -> Option<int>,
                                 instructions: map<int, I>, a: int): seq<int>
  {
    if a in instructions && disassemble(rom, a).Some? then
      Successors(flowOf(instructions[a]), addressOf(instructions[a]), disassemble(rom, a).value.0)
    else []
  }

  /** `a` was queued when the trace began, or is a successor of one of the
      first `n` popped addresses: the reason `a` is reachable. */
  ghost predicate QueuedBy<I>(rom: seq<Byte>, disassemble: (seq<Byte>, int) -> Option<(int, I)>,
                              flowOf: I -> FlowType, addressOf: I -> Option<int>, untraced0: set<int>,
                              instructions: map<int, I>, popped: seq<int>, a: int, n: int)
  {
    || a in untraced0
    || exists j | 0 <= j < n && j < |popped| ::
         a in SuccessorsAt(rom, disassemble, flowOf, addressOf, instructions, popped[j])
  }

  /** The state of a trace in progress, over plain values: `traced0` and
      `untraced0` are the queue's sets when the trace began, `range` the
      traceable addresses, and `popped` the addresses decoded so far, in
      order. Every decoded address has its decoder output recorded, every
      successor of a decoded instruction that lies in the range has been
      queued or traced, and `subroutines` holds the target of every call. */
  ghost predicate Explored<I>(rom: seq<Byte>, disassemble: (seq<Byte>, int) -> Option<(int, I)>,
                              flowOf: I -> FlowType, addressOf: I -> Option<int>,
                              traced0: set<int>, untraced0: set<int>, range: set<int>,
                              traced: set<int>, untraced: set<int>,
                              instructions: map<int, I>, subroutines: set<Option<int>>, popped: seq<int>)
  {
    && untraced !! traced
    && traced0 <= traced
    && untraced0 <= traced + untraced
    && traced + untraced <= traced0 + untraced0 + range
    && instructions.Keys == traced - traced0
    && (forall i, j :: 0 <= i < j < |popped| ==> popped[i] != popped[j])
    && (set a | a in popped) == instructions.Keys
    && (forall a | a in instructions ::
          disassemble(rom, a).Some? && disassemble(rom, a).value.1 == instructions[a])
    && (forall a, s | a in instructions &&
          s in Successors(flowOf(instructions[a]), addressOf(instructions[a]), disassemble(rom, a).value.0) ::
          s in range ==> s in traced + untraced)
    && subroutines == set a | a in instructions && flowOf(instructions[a]) == SubroutineCall ::
                        addressOf(instructions[a])
  }

  /** Nothing is decoded or queued without a reason: each popped address was
      queued when the trace began or is a successor of an address popped
      before it, and each waiting address is one of those two kinds too. */
  ghost predicate Justified<I>(rom: seq<Byte>, disassemble: (seq<Byte>, int) -> Option<(int, I)>,
                               flowOf: I -> FlowType, addressOf: I -> Option<int>, untraced0: set<int>,
                               untraced: set<int>, instructions: map<int, I>, popped: seq<int>)
  {
    && (forall i {:trigger QueuedBy(rom, disassemble, flowOf, addressOf, untraced0, instructions, popped, popped[i], i)}
          | 0 <= i < |popped| ::
          QueuedBy(rom, disassemble, flowOf, addressOf, untraced0, instructions, popped, popped[i], i))
    && (forall a {:trigger QueuedBy(rom, disassemble, flowOf, addressOf, untraced0, instructions, popped, a, |popped|)}
          | a in untraced ::
          QueuedBy(rom, disassemble, flowOf, addressOf, untraced0, instructions, popped, a, |popped|))
  }

  /** `a` was queued when the trace began, or is a successor of the
      instruction the decoder returns at some address. */
  ghost predicate Pushed<I>(rom: seq<Byte>, disassemble: (seq<Byte>, int) -> Option<(int, I)>,
                            flowOf: I -> FlowType, addressOf: I -> Option<int>, untraced0: set<int>, a: int)
  {
    || a in untraced0
    || exists b :: && disassemble(rom, b).Some?
                   && a in Successors(flowOf(disassemble(rom, b).value.1), addressOf(disassemble(rom, b).value.1),
                                      disassemble(rom, b).value.0)
  }

  /** An address waiting in the queue was queued at the start or pushed as
      the successor of an instruction the loop decoded. */
  lemma WaitingWasPushed<I>(rom: seq<Byte>, disassemble: (seq<Byte>, int) -> Option<(int, I)>,
                            flowOf: I -> FlowType, addressOf: I -> Option<int>, untraced0: set<int>,
                            untraced: set<int>, instructions: map<int, I>, popped: seq<int>, pc: int)
    requires forall a | a in instructions ::
               disassemble(rom, a).Some? && disassemble(rom, a).value.1 == instructions[a]
    requires Justified(rom, disassemble, flowOf, addressOf, untraced0, untraced, instructions, popped)
    requires pc in untraced
    ensures Pushed(rom, disassemble, flowOf, addressOf, untraced0, pc)
  {
    assert QueuedBy(rom, disassemble, flowOf, addressOf, untraced0, instructions, popped, pc, |popped|);
    if pc !in untraced0 {
      var j :| 0 <= j < |popped| &&
               pc in SuccessorsAt(rom, disassemble, flowOf, addressOf, instructions, popped[j]);
      var b := popped[j];
      assert b in instructions && disassemble(rom, b).Some?;
      assert pc in Successors(flowOf(disassemble(rom, b).value.1), addressOf(disassemble(rom, b).value.1),
                              disassemble(rom, b).value.0);
    }
  }

  /** Recording a new instruction at `pc` keeps every earlier reason for
      an address to be queued. */
  lemma QueuedByStable<I>(rom: seq<Byte>, disassemble: (seq<Byte>, int) -> Option<(int, I)>,
                          flowOf: I -> FlowType, addressOf: I -> Option<int>, untraced0: set<int>,
                          instructions: map<int, I>, popped: seq<int>, pc: int, inst: I, a: int, n: int)
    requires pc !in instructions && n <= |popped|
    requires QueuedBy(rom, disassemble, flowOf, addressOf, untraced0, instructions, popped, a, n)
    ensures QueuedBy(rom, disassemble, flowOf, addressOf, untraced0, instructions[pc := inst], popped + [pc], a, n)
  {
    if a !in untraced0 {
      var j :| 0 <= j < n && j < |popped| &&
               a in SuccessorsAt(rom, disassemble, flowOf, addressOf, instructions, popped[j]);
      assert (popped + [pc])[j] == popped[j];
      assert SuccessorsAt(rom, disassemble, flowOf, addressOf, instructions[pc := inst], popped[j]) ==
             SuccessorsAt(rom, disassemble, flowOf, addressOf, instructions, popped[j]);
    }
  }

  /** Popping `pc` and queuing successors of its instruction keeps every
      popped and every waiting address explained by an earlier pop. */
  lemma ReachStep<I>(rom: seq<Byte>, disassemble: (seq<Byte>, int) -> Option<(int, I)>,
                     flowOf: I -> FlowType, addressOf: I -> Option<int>, untraced0: set<int>,
                     untraced: set<int>, instructions: map<int, I>, popped: seq<int>, pc: int,
                     untraced': set<int>)
    requires pc in untraced && pc !in instructions && disassemble(rom, pc).Some?
    requires Justified(rom, disassemble, flowOf, addressOf, untraced0, untraced, instructions, popped)
    requires forall a | a in untraced' ::
               a in untraced || a in Successors(flowOf(disassemble(rom, pc).value.1),
                                                addressOf(disassemble(rom, pc).value.1),
                                                disassemble(rom, pc).value.0)
    ensures Justified(rom, disassemble, flowOf, addressOf, untraced0, untraced',
                      instructions[pc := disassemble(rom, pc).value.1], popped + [pc])
  {
    var (newPc, inst) := disassemble(rom, pc).value;
    var instructions' := instructions[pc := inst];
    var popped' := popped + [pc];
    forall i | 0 <= i < |popped'|
      ensures QueuedBy(rom, disassemble, flowOf, addressOf, untraced0, instructions', popped', popped'[i], i)
    {
      if i < |popped| {
        QueuedByStable(rom, disassemble, flowOf, addressOf, untraced0, instructions, popped, pc, inst, popped[i], i);
      } else {
        QueuedByStable(rom, disassemble, flowOf, addressOf, untraced0, instructions, popped, pc, inst, pc, |popped|);
      }
    }
    forall a | a in untraced'
      ensures QueuedBy(rom, disassemble, flowOf, addressOf, untraced0, instructions', popped', a, |popped'|)
    {
      if a in untraced {
        QueuedByStable(rom, disassemble, flowOf, addressOf, untraced0, instructions, popped, pc, inst, a, |popped|);
        assert |popped| <= |popped'|;
      } else {
        assert popped'[|popped|] == pc;
        assert a in SuccessorsAt(rom, disassemble, flowOf, addressOf, instructions', popped'[|popped|]);
      }
    }
  }

  /** Recording `pc` keeps the decoded addresses, the popped order and the
      recorded instructions in step. */
  lemma RecordStep<I>(traced0: set<int>, traced: set<int>, instructions: map<int, I>,
                      popped: seq<int>, pc: int, inst: I)
    requires instructions.Keys == traced - traced0 && traced0 <= traced && pc !in traced
    requires forall i, j :: 0 <= i < j < |popped| ==> popped[i] != popped[j]
    requires (set a | a in popped) == instructions.Keys
    ensures instructions[pc := inst].Keys == traced + {pc} - traced0
    ensures forall i, j :: 0 <= i < j < |popped + [pc]| ==> (popped + [pc])[i] != (popped + [pc])[j]
    ensures (set a | a in popped + [pc]) == instructions[pc := inst].Keys
  {
    assert (set a | a in popped + [pc]) == (set a | a in popped) + {pc};
  }

  /** Recording `pc` keeps `subroutines` the set of call targets. */
  lemma SubroutineStep<I>(flowOf: I -> FlowType, addressOf: I -> Option<int>,
                          instructions: map<int, I>, subroutines: set<Option<int>>, pc: int, inst: I,
                          updated: map<int, I>)
    requires pc !in instructions && updated == instructions[pc := inst]
    requires subroutines == set a | a in instructions && flowOf(instructions[a]) == SubroutineCall ::
                              addressOf(instructions[a])
    ensures (if flowOf(inst) == SubroutineCall then subroutines + {addressOf(inst)} else subroutines) ==
            set a | a in updated && flowOf(updated[a]) == SubroutineCall :: addressOf(updated[a])
  {
    var recorded := if flowOf(inst) == SubroutineCall then subroutines + {addressOf(inst)} else subroutines;
    var targets := set a | a in updated && flowOf(updated[a]) == SubroutineCall :: addressOf(updated[a]);
    forall x
      ensures x in recorded <==> x in targets
    {
      if x in subroutines {
        var a :| a in instructions && flowOf(instructions[a]) == SubroutineCall && addressOf(instructions[a]) == x;
        assert updated[a] == instructions[a];
      }
      if flowOf(inst) == SubroutineCall && x == addressOf(inst) {
        assert pc in updated && updated[pc] == inst;
      }
      if x in targets {
        var a :| a in updated && flowOf(updated[a]) == SubroutineCall && addressOf(updated[a]) == x;
        if a != pc {
          assert a in instructions && updated[a] == instructions[a];
        }
      }
    }
  }

  /** Queuing the in-range successors of the instruction at `pc` keeps every
      in-range successor of a decoded instruction queued or traced. */
  lemma SuccessorStep<I>(rom: seq<Byte>, disassemble: (seq<Byte>, int) -> Option<(int, I)>,
                         flowOf: I -> FlowType, addressOf: I -> Option<int>, range: set<int>,
                         traced: set<int>, untraced: set<int>, instructions: map<int, I>, pc: int)
    requires pc in untraced && disassemble(rom, pc).Some?
    requires forall a | a in instructions :: disassemble(rom, a).Some? && disassemble(rom, a).value.1 == instructions[a]
    requires forall a, s | a in instructions &&
               s in Successors(flowOf(instructions[a]), addressOf(instructions[a]), disassemble(rom, a).value.0) ::
               s in range ==> s in traced + untraced
    ensures var (newPc, inst) := disassemble(rom, pc).value;
      var traced' := traced + {pc};
      var untraced' := untraced - {pc} +
        (set s | s in Successors(flowOf(inst), addressOf(inst), newPc) && s in range && s !in traced');
      var instructions' := instructions[pc := inst];
      forall a, s | a in instructions' &&
        s in Successors(flowOf(instructions'[a]), addressOf(instructions'[a]), disassemble(rom, a).value.0) ::
        s in range ==> s in traced' + untraced'
  {
  }

  /** One iteration of the trace loop keeps Explored and shrinks the set of
      addresses that may still be decoded: `pc` is popped and decoded, and
      the successors of its instruction that are in range and not traced
      are queued. */
  lemma ExploreStep<I>(rom: seq<Byte>, disassemble: (seq<Byte>, int) -> Option<(int, I)>,
                       flowOf: I -> FlowType, addressOf: I -> Option<int>,
                       traced0: set<int>, untraced0: set<int>, range: set<int>,
                       traced: set<int>, untraced: set<int>,
                       instructions: map<int, I>, subroutines: set<Option<int>>, popped: seq<int>,
                       pc: int, traced': set<int>, untraced': set<int>,
                       instructions': map<int, I>, subroutines': set<Option<int>>)
    requires Explored(rom, disassemble, flowOf, addressOf, traced0, untraced0, range,
                      traced, untraced, instructions, subroutines, popped)
    requires Justified(rom, disassemble, flowOf, addressOf, untraced0, untraced, instructions, popped)
    requires pc in untraced && disassemble(rom, pc).Some?
    requires var (newPc, inst) := disassemble(rom, pc).value;
      && traced' == traced + {pc}
      && untraced' == untraced - {pc} +
           (set s | s in Successors(flowOf(inst), addressOf(inst), newPc) && s in range && s !in traced')
      && instructions' == instructions[pc := inst]
      && subroutines' == if flowOf(inst) == SubroutineCall then subroutines + {addressOf(inst)} else subroutines
    ensures Explored(rom, disassemble, flowOf, addressOf, traced0, untraced0, range,
                     traced', untraced', instructions', subroutines', popped + [pc])
    ensures Justified(rom, disassemble, flowOf, addressOf, untraced0, untraced', instructions', popped + [pc])
    ensures untraced' + (range - traced') < untraced + (range - traced)
  {
    var (newPc, inst) := disassemble(rom, pc).value;
    ReachStep(rom, disassemble, flowOf, addressOf, untraced0, untraced, instructions, popped, pc, untraced');
    RecordStep(traced0, traced, instructions, popped, pc, inst);
    SubroutineStep(flowOf, addressOf, instructions, subroutines, pc, inst, instructions');
    SuccessorStep(rom, disassemble, flowOf, addressOf, range, traced, untraced, instructions, pc);
    assert pc !in untraced' + (range - traced');
  }

  /** When the queue is empty the exploration is closed: every entry point
      was traced, every in-range successor of a decoded instruction was
      traced, by this trace or before it, and the subroutine set is exactly
      the set of targets of the decoded calls. */
  lemma ExploredComplete<I>(rom: seq<Byte>, disassemble: (seq<Byte>, int) -> Option<(int, I)>,
                            flowOf: I -> FlowType, addressOf: I -> Option<int>,
                            traced0: set<int>, untraced0: set<int>, range: set<int>, traced: set<int>,
                            instructions: map<int, I>, subroutines: set<Option<int>>, popped: seq<int>)
    requires Explored(rom, disassemble, flowOf, addressOf, traced0, untraced0, range,
                      traced, {}, instructions, subroutines, popped)
    ensures untraced0 <= traced
    ensures instructions.Keys == traced - traced0 && instructions.Keys <= untraced0 + range
    ensures forall a | a in instructions ::
              disassemble(rom, a).Some? && disassemble(rom, a).value.1 == instructions[a]
    ensures forall a | a in instructions ::
              var (newPc, inst) := disassemble(rom, a).value;
              forall s | s in Successors(flowOf(inst), addressOf(inst), newPc) && s in range ::
                s in instructions || s in traced0
    ensures subroutines == set a | a in instructions && flowOf(instructions[a]) == SubroutineCall ::
                             addressOf(instructions[a])
  {
  }

  /** Tracer: follows control flow through `rom` from the queued addresses.
      The decoder is a parameter (`disassemble_func`), as are the two
      instruction attributes the tracer reads, `flow_type` and `address`. */
  class Tracer<I> {
    const rom: seq<Byte>
    const queue: TraceQueue

    constructor (rom: seq<Byte>, queue: TraceQueue)
      ensures this.rom == rom && this.queue == queue
    {
      this.rom := rom;
      this.queue := queue;
    }

    /** Queues the successors of one decoded instruction. */
    method PushSuccessors(flow: FlowType, address: Option<int>, newPc: int)
      requires queue.Valid()
      modifies queue
      ensures queue.Valid() && queue.traced == old(queue.traced)
      ensures queue.untraced ==
                old(queue.untraced) +
                (set s | s in Successors(flow, address, newPc) && queue.InRange(s) && s !in queue.traced)
    {
      match flow
      case Continue =>
        queue.PushAddress(newPc);
      case UnconditionalJump =>
        if address.Some? { queue.PushAddress(address.value); }
      case ConditionalJump =>
        if address.Some? { queue.PushAddress(address.value); }
        queue.PushAddress(newPc);
      case SubroutineCall =>
        if address.Some? { queue.PushAddress(address.value); }
        queue.PushAddress(newPc);
      case IndirectUnconditionalJump =>
      case IndirectSubroutineCall =>
        queue.PushAddress(newPc);
      case SubroutineReturn =>
    }

    /** trace: decodes every reachable address once, and nothing else. On success the result
        maps each newly traced address to its instruction, and the set holds
        the target of every subroutine call met. None when the decoder fails
        (an IndexError in the source) at some popped address. The ghost
        `popped` lists the decoded addresses in the order they were taken. */
    method Trace(disassemble: (seq<Byte>, int) -> Option<(int, I)>,
                 flowOf: I -> FlowType, addressOf: I -> Option<int>)
      returns (r: Option<(map<int, I>, set<Option<int>>)>, ghost popped: seq<int>)
      requires queue.Valid()
      modifies queue
      ensures queue.Valid() && old(queue.traced) <= queue.traced
      ensures queue.traced - old(queue.traced) <= old(queue.untraced) + queue.TraceableRange()
      ensures forall i, j :: 0 <= i < j < |popped| ==> popped[i] != popped[j]
      ensures (set a | a in popped) == queue.traced - old(queue.traced)
      ensures r.None? ==>
                exists a :: && a in popped && disassemble(rom, a).None?
                            && Pushed(rom, disassemble, flowOf, addressOf, old(queue.untraced), a)
      ensures r.Some? ==>
                && queue.untraced == {}
                && Explored(rom, disassemble, flowOf, addressOf, old(queue.traced), old(queue.untraced),
                            queue.TraceableRange(), queue.traced, {}, r.value.0, r.value.1, popped)
                && Justified(rom, disassemble, flowOf, addressOf, old(queue.untraced), {}, r.value.0, popped)
    {
      var instructions: map<int, I> := map[];
      var subroutines: set<Option<int>> := {};
      ghost var range := queue.TraceableRange();
      ghost var traced0, untraced0 := queue.traced, queue.untraced;
      popped := [];
      var more := queue.HasAddresses();
      while more
        invariant queue.Valid()
        invariant more <==> queue.untraced != {}
        invariant Explored(rom, disassemble, flowOf, addressOf, traced0, untraced0, range,
                           queue.traced, queue.untraced, instructions, subroutines, popped)
        invariant Justified(rom, disassemble, flowOf, addressOf, untraced0, queue.untraced, instructions, popped)
        decreases queue.untraced + (range - queue.traced)
      {
        ghost var traced, untraced := queue.traced, queue.untraced;
        var popResult := queue.PopAddress();
        var pc := popResult.value;
        var decoded := disassemble(rom, pc);
        if decoded.None? {
          WaitingWasPushed(rom, disassemble, flowOf, addressOf, untraced0, untraced, instructions, popped, pc);
          assert (set a | a in popped + [pc]) == (set a | a in popped) + {pc};
          popped := popped + [pc];
          assert pc in popped;
          return None, popped;
        }
        ghost var instructions0, subroutines0, popped0 := instructions, subroutines, popped;
        popped := popped + [pc];
        var (newPc, inst) := decoded.value;
        instructions := instructions[pc := inst];
        if flowOf(inst) == SubroutineCall {
          subroutines := subroutines + {addressOf(inst)};
        }
        PushSuccessors(flowOf(inst), addressOf(inst), newPc);
        assert queue.untraced == untraced - {pc} +
          (set s | s in Successors(flowOf(inst), addressOf(inst), newPc) && s in range && s !in queue.traced);
        ExploreStep(rom, disassemble, flowOf, addressOf, traced0, untraced0, range,
                    traced, untraced, instructions0, subroutines0, popped0, pc,
                    queue.traced, queue.untraced, instructions, subroutines);
        more := queue.HasAddresses();
      }
      r := Some((instructions, subroutines));
    }
  }
}
