/** Static decoding tables of the F2MC-8L instruction set: the addressing
    modes, the byte length of each mode, the control-flow categories and the
    256-entry opcode table. */
module Tables {

  /** An unsigned 8-bit value. */
  type Byte = x: int | 0 <= x < 0x100

  /** An unsigned 16-bit value: an address of the 64K address space. */
  type Word = x: int | 0 <= x < 0x10000

  /** Size of the address space; address arithmetic of the package decoder
      is modulo this value. */
  const AddressSpace: int := 0x10000

  /** The operand-encoding shape of an instruction: which operand bytes
      follow the opcode and what they mean. */
  datatype AddressMode =
    | Illegal                    // an undefined opcode, listed as a data byte
    | Inherent                   // no operand
    | ImmediateByte              // one byte of immediate data
    | ImmediateWord              // a big-endian 16-bit immediate
    | Extended                   // a big-endian 16-bit absolute address
    | Direct                     // a one-byte address in the first page
    | DirectWithImmediateByte    // a first-page address, then immediate data
    | Register                   // no operand; R0-R7 in the opcode's low bits
    | RegisterWithImmediateByte  // register in the opcode, one immediate byte
    | Pointer                    // no operand; the address is held in a register
    | PointerWithImmediateByte   // register-held address, one immediate byte
    | Index                      // one offset byte added to IX
    | IndexWithImmediateByte     // an IX offset byte, then immediate data
    | BitDirect                  // a first-page address; bit number in the opcode
    | BitDirectWithRelative      // the address to test, then a signed displacement
    | Relative                   // one signed displacement from the next instruction
    | Vector                     // no operand; vector number in the opcode

  /** Byte length of an instruction (opcode plus operands), determined by its
      addressing mode alone. */
  function InstructionLength(mode: AddressMode): (n: nat)
    ensures 1 <= n <= 3
    ensures n == 1 <==> mode in {Illegal, Inherent, Register, Pointer, Vector}
    ensures n == 3 <==> mode in {ImmediateWord, Extended, DirectWithImmediateByte,
                                 IndexWithImmediateByte, BitDirectWithRelative}
  {
    match mode
    case Illegal => 1
    case Inherent => 1
    case ImmediateByte => 2
    case ImmediateWord => 3
    case Extended => 3
    case Direct => 2
    case DirectWithImmediateByte => 3
    case Register => 1
    case RegisterWithImmediateByte => 2
    case Pointer => 1
    case PointerWithImmediateByte => 2
    case Index => 2
    case IndexWithImmediateByte => 3
    case BitDirect => 2
    case BitDirectWithRelative => 3
    case Relative => 2
    case Vector => 1
  }

  /** The control-flow category of an instruction, as the tracer uses it.
      The stand-alone script calls three of them IndirectBranch,
      UnconditionalBranch and ConditionalBranch; they correspond one-to-one to
      IndirectUnconditionalJump, UnconditionalJump and ConditionalJump. */
  datatype FlowType =
    | Continue                   // execution falls through to the next instruction
    | IndirectUnconditionalJump  // jumps to a computed address, unknown statically
    | UnconditionalJump          // always transfers to its absolute target
    | ConditionalJump            // either falls through or takes its target
    | SubroutineCall             // calls its absolute target, then falls through
    | IndirectSubroutineCall     // calls through a vector table, then falls through
    | SubroutineReturn           // leaves the current routine

  /** One entry of the opcode table: the disassembly template, the addressing
      mode and the flow type. */
  datatype Opcode = Opcode(template: string, mode: AddressMode, flow: FlowType)

  /** The opcode table: one entry for each of the 256 byte values, looked up
      by the high nibble and then by the opcode itself. */
  function Opcodes(op: Byte): Opcode
  {
    if op < 0x10 then Row0(op)
    else if op < 0x20 then Row1(op)
    else if op < 0x30 then Row2(op)
    else if op < 0x40 then Row3(op)
    else if op < 0x50 then Row4(op)
    else if op < 0x60 then Row5(op)
    else if op < 0x70 then Row6(op)
    else if op < 0x80 then Row7(op)
    else if op < 0x90 then Row8(op)
    else if op < 0xA0 then Row9(op)
    else if op < 0xB0 then RowA(op)
    else if op < 0xC0 then RowB(op)
    else if op < 0xD0 then RowC(op)
    else if op < 0xE0 then RowD(op)
    else if op < 0xF0 then RowE(op)
    else RowF(op)
  }

  /** Opcodes 0x00 to 0x0F. */
  function Row0(op: Byte): Opcode
    requires 0x00 <= op <= 0x0F
  {
    match op
    case 0x00 => Opcode("nop",                 Inherent,                   Continue)
    case 0x01 => Opcode("mulu a",              Inherent,                   Continue)
    case 0x02 => Opcode("rolc a",              Inherent,                   Continue)
    case 0x03 => Opcode("rorc a",              Inherent,                   Continue)
    case 0x04 => Opcode("mov a, #IMB",         ImmediateByte,              Continue)
    case 0x05 => Opcode("mov a, DIR",          Direct,                     Continue)
    case 0x06 => Opcode("mov a, @ix+IXD",      Index,                      Continue)
    case 0x07 => Opcode("mov a, @ep",          Pointer,                    Continue)
    case 0x08 => Opcode("mov a, rREG",         Register,                   Continue)
    case 0x09 => Opcode("mov a, rREG",         Register,                   Continue)
    case 0x0A => Opcode("mov a, rREG",         Register,                   Continue)
    case 0x0B => Opcode("mov a, rREG",         Register,                   Continue)
    case 0x0C => Opcode("mov a, rREG",         Register,                   Continue)
    case 0x0D => Opcode("mov a, rREG",         Register,                   Continue)
    case 0x0E => Opcode("mov a, rREG",         Register,                   Continue)
    case 0x0F => Opcode("mov a, rREG",         Register,                   Continue)
  }

  /** Opcodes 0x10 to 0x1F. */
  function Row1(op: Byte): Opcode
    requires 0x10 <= op <= 0x1F
  {
    match op
    case 0x10 => Opcode("swap",                Inherent,                   Continue)
    case 0x11 => Opcode("divu a",              Inherent,                   Continue)
    case 0x12 => Opcode("cmp a",               Inherent,                   Continue)
    case 0x13 => Opcode("cmpw a",              Inherent,                   Continue)
    case 0x14 => Opcode("cmp a, #IMB",         ImmediateByte,              Continue)
    case 0x15 => Opcode("cmp a, DIR",          Direct,                     Continue)
    case 0x16 => Opcode("cmp a, @ix+IXD",      Index,                      Continue)
    case 0x17 => Opcode("cmp a, @ep",          Pointer,                    Continue)
    case 0x18 => Opcode("cmp a, rREG",         Register,                   Continue)
    case 0x19 => Opcode("cmp a, rREG",         Register,                   Continue)
    case 0x1A => Opcode("cmp a, rREG",         Register,                   Continue)
    case 0x1B => Opcode("cmp a, rREG",         Register,                   Continue)
    case 0x1C => Opcode("cmp a, rREG",         Register,                   Continue)
    case 0x1D => Opcode("cmp a, rREG",         Register,                   Continue)
    case 0x1E => Opcode("cmp a, rREG",         Register,                   Continue)
    case 0x1F => Opcode("cmp a, rREG",         Register,                   Continue)
  }

  /** Opcodes 0x20 to 0x2F. */
  function Row2(op: Byte): Opcode
    requires 0x20 <= op <= 0x2F
  {
    match op
    case 0x20 => Opcode("ret",                 Inherent,                   SubroutineReturn)
    case 0x21 => Opcode("jmp EXT",             Extended,                   UnconditionalJump)
    case 0x22 => Opcode("addc a",              Inherent,                   Continue)
    case 0x23 => Opcode("addcw a",             Inherent,                   Continue)
    case 0x24 => Opcode("addc a, #IMB",        ImmediateByte,              Continue)
    case 0x25 => Opcode("addc a, DIR",         Direct,                     Continue)
    case 0x26 => Opcode("addc a, @ix+IXD",     Index,                      Continue)
    case 0x27 => Opcode("addc a, @ep",         Pointer,                    Continue)
    case 0x28 => Opcode("addc a, rREG",        Register,                   Continue)
    case 0x29 => Opcode("addc a, rREG",        Register,                   Continue)
    case 0x2A => Opcode("addc a, rREG",        Register,                   Continue)
    case 0x2B => Opcode("addc a, rREG",        Register,                   Continue)
    case 0x2C => Opcode("addc a, rREG",        Register,                   Continue)
    case 0x2D => Opcode("addc a, rREG",        Register,                   Continue)
    case 0x2E => Opcode("addc a, rREG",        Register,                   Continue)
    case 0x2F => Opcode("addc a, rREG",        Register,                   Continue)
  }

  /** Opcodes 0x30 to 0x3F. */
  function Row3(op: Byte): Opcode
    requires 0x30 <= op <= 0x3F
  {
    match op
    case 0x30 => Opcode("reti",                Inherent,                   SubroutineReturn)
    case 0x31 => Opcode("call EXT",            Extended,                   SubroutineCall)
    case 0x32 => Opcode("subc a",              Inherent,                   Continue)
    case 0x33 => Opcode("subcw a",             Inherent,                   Continue)
    case 0x34 => Opcode("subc a, #IMB",        ImmediateByte,              Continue)
    case 0x35 => Opcode("subc a, DIR",         Direct,                     Continue)
    case 0x36 => Opcode("subc a, @ix+IXD",     Index,                      Continue)
    case 0x37 => Opcode("subc a, @ep",         Pointer,                    Continue)
    case 0x38 => Opcode("subc a, rREG",        Register,                   Continue)
    case 0x39 => Opcode("subc a, rREG",        Register,                   Continue)
    case 0x3A => Opcode("subc a, rREG",        Register,                   Continue)
    case 0x3B => Opcode("subc a, rREG",        Register,                   Continue)
    case 0x3C => Opcode("subc a, rREG",        Register,                   Continue)
    case 0x3D => Opcode("subc a, rREG",        Register,                   Continue)
    case 0x3E => Opcode("subc a, rREG",        Register,                   Continue)
    case 0x3F => Opcode("subc a, rREG",        Register,                   Continue)
  }

  /** Opcodes 0x40 to 0x4F. */
  function Row4(op: Byte): Opcode
    requires 0x40 <= op <= 0x4F
  {
    match op
    case 0x40 => Opcode("pushw a",             Inherent,                   Continue)
    case 0x41 => Opcode("pushw ix",            Inherent,                   Continue)
    case 0x42 => Opcode("xch a, t",            Inherent,                   Continue)
    case 0x43 => Opcode("xchw a, t",           Inherent,                   Continue)
    case 0x44 => Opcode(".byte OPC",           Illegal,                    Continue)
    case 0x45 => Opcode("mov DIR, a",          Direct,                     Continue)
    case 0x46 => Opcode("mov @ix+IXD, a",      Index,                      Continue)
    case 0x47 => Opcode("mov @ep, a",          Pointer,                    Continue)
    case 0x48 => Opcode("mov r0, a",           Register,                   Continue)
    case 0x49 => Opcode("mov r1, a",           Register,                   Continue)
    case 0x4A => Opcode("mov r2, a",           Register,                   Continue)
    case 0x4B => Opcode("mov r3, a",           Register,                   Continue)
    case 0x4C => Opcode("mov r4, a",           Register,                   Continue)
    case 0x4D => Opcode("mov r5, a",           Register,                   Continue)
    case 0x4E => Opcode("mov r6, a",           Register,                   Continue)
    case 0x4F => Opcode("mov r7, a",           Register,                   Continue)
  }

  /** Opcodes 0x50 to 0x5F. */
  function Row5(op: Byte): Opcode
    requires 0x50 <= op <= 0x5F
  {
    match op
    case 0x50 => Opcode("popw a",              Inherent,                   Continue)
    case 0x51 => Opcode("popw ix",             Inherent,                   Continue)
    case 0x52 => Opcode("xor a",               Inherent,                   Continue)
    case 0x53 => Opcode("xorw a",              Inherent,                   Continue)
    case 0x54 => Opcode("xor a, #IMB",         ImmediateByte,              Continue)
    case 0x55 => Opcode("xor a, DIR",          Direct,                     Continue)
    case 0x56 => Opcode("xor a, @ix+IXD",      Index,                      Continue)
    case 0x57 => Opcode("xor a, @ep",          Pointer,                    Continue)
    case 0x58 => Opcode("xor a, rREG",         Register,                   Continue)
    case 0x59 => Opcode("xor a, rREG",         Register,                   Continue)
    case 0x5A => Opcode("xor a, rREG",         Register,                   Continue)
    case 0x5B => Opcode("xor a, rREG",         Register,                   Continue)
    case 0x5C => Opcode("xor a, rREG",         Register,                   Continue)
    case 0x5D => Opcode("xor a, rREG",         Register,                   Continue)
    case 0x5E => Opcode("xor a, rREG",         Register,                   Continue)
    case 0x5F => Opcode("xor a, rREG",         Register,                   Continue)
  }

  /** Opcodes 0x60 to 0x6F. */
  function Row6(op: Byte): Opcode
    requires 0x60 <= op <= 0x6F
  {
    match op
    case 0x60 => Opcode("mov a, EXT",          Extended,                   Continue)
    case 0x61 => Opcode("mov EXT, a",          Extended,                   Continue)
    case 0x62 => Opcode("and a",               Inherent,                   Continue)
    case 0x63 => Opcode("andw a",              Inherent,                   Continue)
    case 0x64 => Opcode("and a, #IMB",         ImmediateByte,              Continue)
    case 0x65 => Opcode("and a, DIR",          Direct,                     Continue)
    case 0x66 => Opcode("and a, @ix+IXD",      Index,                      Continue)
    case 0x67 => Opcode("and a, @ep",          Pointer,                    Continue)
    case 0x68 => Opcode("and a, rREG",         Register,                   Continue)
    case 0x69 => Opcode("and a, rREG",         Register,                   Continue)
    case 0x6A => Opcode("and a, rREG",         Register,                   Continue)
    case 0x6B => Opcode("and a, rREG",         Register,                   Continue)
    case 0x6C => Opcode("and a, rREG",         Register,                   Continue)
    case 0x6D => Opcode("and a, rREG",         Register,                   Continue)
    case 0x6E => Opcode("and a, rREG",         Register,                   Continue)
    case 0x6F => Opcode("and a, rREG",         Register,                   Continue)
  }

  /** Opcodes 0x70 to 0x7F. */
  function Row7(op: Byte): Opcode
    requires 0x70 <= op <= 0x7F
  {
    match op
    case 0x70 => Opcode("movw a, ps",          Inherent,                   Continue)
    case 0x71 => Opcode("movw ps, a",          Inherent,                   Continue)
    case 0x72 => Opcode("or a",                Inherent,                   Continue)
    case 0x73 => Opcode("orw a",               Inherent,                   Continue)
    case 0x74 => Opcode("or a, #IMB",          ImmediateByte,              Continue)
    case 0x75 => Opcode("or a, DIR",           Direct,                     Continue)
    case 0x76 => Opcode("or a, @ix+IXD",       Index,                      Continue)
    case 0x77 => Opcode("or a, @ep",           Pointer,                    Continue)
    case 0x78 => Opcode("or a, rREG",          Register,                   Continue)
    case 0x79 => Opcode("or a, rREG",          Register,                   Continue)
    case 0x7A => Opcode("or a, rREG",          Register,                   Continue)
    case 0x7B => Opcode("or a, rREG",          Register,                   Continue)
    case 0x7C => Opcode("or a, rREG",          Register,                   Continue)
    case 0x7D => Opcode("or a, rREG",          Register,                   Continue)
    case 0x7E => Opcode("or a, rREG",          Register,                   Continue)
    case 0x7F => Opcode("or a, rREG",          Register,                   Continue)
  }

  /** Opcodes 0x80 to 0x8F. */
  function Row8(op: Byte): Opcode
    requires 0x80 <= op <= 0x8F
  {
    match op
    case 0x80 => Opcode("clri",                Inherent,                   Continue)
    case 0x81 => Opcode("clrc",                Inherent,                   Continue)
    case 0x82 => Opcode("mov @a, t",           Inherent,                   Continue)
    case 0x83 => Opcode("movw @a, t",          Inherent,                   Continue)
    case 0x84 => Opcode("daa",                 Inherent,                   Continue)
    case 0x85 => Opcode("mov DIR, #IMB",       DirectWithImmediateByte,    Continue)
    case 0x86 => Opcode("mov @ix+IXD, #IMB",   IndexWithImmediateByte,     Continue)
    case 0x87 => Opcode("mov @ep, #IMB",       PointerWithImmediateByte,   Continue)
    case 0x88 => Opcode("mov rREG, #IMB",      RegisterWithImmediateByte,  Continue)
    case 0x89 => Opcode("mov rREG, #IMB",      RegisterWithImmediateByte,  Continue)
    case 0x8A => Opcode("mov rREG, #IMB",      RegisterWithImmediateByte,  Continue)
    case 0x8B => Opcode("mov rREG, #IMB",      RegisterWithImmediateByte,  Continue)
    case 0x8C => Opcode("mov rREG, #IMB",      RegisterWithImmediateByte,  Continue)
    case 0x8D => Opcode("mov rREG, #IMB",      RegisterWithImmediateByte,  Continue)
    case 0x8E => Opcode("mov rREG, #IMB",      RegisterWithImmediateByte,  Continue)
    case 0x8F => Opcode("mov rREG, #IMB",      RegisterWithImmediateByte,  Continue)
  }

  /** Opcodes 0x90 to 0x9F. */
  function Row9(op: Byte): Opcode
    requires 0x90 <= op <= 0x9F
  {
    match op
    case 0x90 => Opcode("seti",                Inherent,                   Continue)
    case 0x91 => Opcode("setc",                Inherent,                   Continue)
    case 0x92 => Opcode("mov a, @a",           Inherent,                   Continue)
    case 0x93 => Opcode("movw a, @a",          Inherent,                   Continue)
    case 0x94 => Opcode("das",                 Inherent,                   Continue)
    case 0x95 => Opcode("cmp DIR, #IMB",       DirectWithImmediateByte,    Continue)
    case 0x96 => Opcode("cmp @ix+IXD, #IMB",   IndexWithImmediateByte,     Continue)
    case 0x97 => Opcode("cmp @ep, #IMB",       PointerWithImmediateByte,   Continue)
    case 0x98 => Opcode("cmp rREG, #IMB",      RegisterWithImmediateByte,  Continue)
    case 0x99 => Opcode("cmp rREG, #IMB",      RegisterWithImmediateByte,  Continue)
    case 0x9A => Opcode("cmp rREG, #IMB",      RegisterWithImmediateByte,  Continue)
    case 0x9B => Opcode("cmp rREG, #IMB",      RegisterWithImmediateByte,  Continue)
    case 0x9C => Opcode("cmp rREG, #IMB",      RegisterWithImmediateByte,  Continue)
    case 0x9D => Opcode("cmp rREG, #IMB",      RegisterWithImmediateByte,  Continue)
    case 0x9E => Opcode("cmp rREG, #IMB",      RegisterWithImmediateByte,  Continue)
    case 0x9F => Opcode("cmp rREG, #IMB",      RegisterWithImmediateByte,  Continue)
  }

  /** Opcodes 0xA0 to 0xAF. */
  function RowA(op: Byte): Opcode
    requires 0xA0 <= op <= 0xAF
  {
    match op
    case 0xA0 => Opcode("clrb DIR:BIT",        BitDirect,                  Continue)
    case 0xA1 => Opcode("clrb DIR:BIT",        BitDirect,                  Continue)
    case 0xA2 => Opcode("clrb DIR:BIT",        BitDirect,                  Continue)
    case 0xA3 => Opcode("clrb DIR:BIT",        BitDirect,                  Continue)
    case 0xA4 => Opcode("clrb DIR:BIT",        BitDirect,                  Continue)
    case 0xA5 => Opcode("clrb DIR:BIT",        BitDirect,                  Continue)
    case 0xA6 => Opcode("clrb DIR:BIT",        BitDirect,                  Continue)
    case 0xA7 => Opcode("clrb DIR:BIT",        BitDirect,                  Continue)
    case 0xA8 => Opcode("setb DIR:BIT",        BitDirect,                  Continue)
    case 0xA9 => Opcode("setb DIR:BIT",        BitDirect,                  Continue)
    case 0xAA => Opcode("setb DIR:BIT",        BitDirect,                  Continue)
    case 0xAB => Opcode("setb DIR:BIT",        BitDirect,                  Continue)
    case 0xAC => Opcode("setb DIR:BIT",        BitDirect,                  Continue)
    case 0xAD => Opcode("setb DIR:BIT",        BitDirect,                  Continue)
    case 0xAE => Opcode("setb DIR:BIT",        BitDirect,                  Continue)
    case 0xAF => Opcode("setb DIR:BIT",        BitDirect,                  Continue)
  }

  /** Opcodes 0xB0 to 0xBF. */
  function RowB(op: Byte): Opcode
    requires 0xB0 <= op <= 0xBF
  {
    match op
    case 0xB0 => Opcode("bbc DIR:BIT,REL",     BitDirectWithRelative,      ConditionalJump)
    case 0xB1 => Opcode("bbc DIR:BIT,REL",     BitDirectWithRelative,      ConditionalJump)
    case 0xB2 => Opcode("bbc DIR:BIT,REL",     BitDirectWithRelative,      ConditionalJump)
    case 0xB3 => Opcode("bbc DIR:BIT,REL",     BitDirectWithRelative,      ConditionalJump)
    case 0xB4 => Opcode("bbc DIR:BIT,REL",     BitDirectWithRelative,      ConditionalJump)
    case 0xB5 => Opcode("bbc DIR:BIT,REL",     BitDirectWithRelative,      ConditionalJump)
    case 0xB6 => Opcode("bbc DIR:BIT,REL",     BitDirectWithRelative,      ConditionalJump)
    case 0xB7 => Opcode("bbc DIR:BIT,REL",     BitDirectWithRelative,      ConditionalJump)
    case 0xB8 => Opcode("bbs DIR:BIT,REL",     BitDirectWithRelative,      ConditionalJump)
    case 0xB9 => Opcode("bbs DIR:BIT,REL",     BitDirectWithRelative,      ConditionalJump)
    case 0xBA => Opcode("bbs DIR:BIT,REL",     BitDirectWithRelative,      ConditionalJump)
    case 0xBB => Opcode("bbs DIR:BIT,REL",     BitDirectWithRelative,      ConditionalJump)
    case 0xBC => Opcode("bbs DIR:BIT,REL",     BitDirectWithRelative,      ConditionalJump)
    case 0xBD => Opcode("bbs DIR:BIT,REL",     BitDirectWithRelative,      ConditionalJump)
    case 0xBE => Opcode("bbs DIR:BIT,REL",     BitDirectWithRelative,      ConditionalJump)
    case 0xBF => Opcode("bbs DIR:BIT,REL",     BitDirectWithRelative,      ConditionalJump)
  }

  /** Opcodes 0xC0 to 0xCF. */
  function RowC(op: Byte): Opcode
    requires 0xC0 <= op <= 0xCF
  {
    match op
    case 0xC0 => Opcode("incw a",              Inherent,                   Continue)
    case 0xC1 => Opcode("incw sp",             Inherent,                   Continue)
    case 0xC2 => Opcode("incw ix",             Inherent,                   Continue)
    case 0xC3 => Opcode("incw ep",             Inherent,                   Continue)
    case 0xC4 => Opcode("movw a, EXT",         Extended,                   Continue)
    case 0xC5 => Opcode("movw a, DIR",         Direct,                     Continue)
    case 0xC6 => Opcode("movw a, @ix+IXD",     Index,                      Continue)
    case 0xC7 => Opcode("movw a, @ep",         Inherent,                   Continue)
    case 0xC8 => Opcode("inc rREG",            Register,                   Continue)
    case 0xC9 => Opcode("inc rREG",            Register,                   Continue)
    case 0xCA => Opcode("inc rREG",            Register,                   Continue)
    case 0xCB => Opcode("inc rREG",            Register,                   Continue)
    case 0xCC => Opcode("inc rREG",            Register,                   Continue)
    case 0xCD => Opcode("inc rREG",            Register,                   Continue)
    case 0xCE => Opcode("inc rREG",            Register,                   Continue)
    case 0xCF => Opcode("inc rREG",            Register,                   Continue)
  }

  /** Opcodes 0xD0 to 0xDF. */
  function RowD(op: Byte): Opcode
    requires 0xD0 <= op <= 0xDF
  {
    match op
    case 0xD0 => Opcode("decw a",              Inherent,                   Continue)
    case 0xD1 => Opcode("decw sp",             Inherent,                   Continue)
    case 0xD2 => Opcode("decw ix",             Inherent,                   Continue)
    case 0xD3 => Opcode("decw ep",             Inherent,                   Continue)
    case 0xD4 => Opcode("movw EXT, a",         Extended,                   Continue)
    case 0xD5 => Opcode("movw DIR, a",         Direct,                     Continue)
    case 0xD6 => Opcode("movw @ix+IXD, a",     Index,                      Continue)
    case 0xD7 => Opcode("movw @ep, a",         Pointer,                    Continue)
    case 0xD8 => Opcode("dec rREG",            Register,                   Continue)
    case 0xD9 => Opcode("dec rREG",            Register,                   Continue)
    case 0xDA => Opcode("dec rREG",            Register,                   Continue)
    case 0xDB => Opcode("dec rREG",            Register,                   Continue)
    case 0xDC => Opcode("dec rREG",            Register,                   Continue)
    case 0xDD => Opcode("dec rREG",            Register,                   Continue)
    case 0xDE => Opcode("dec rREG",            Register,                   Continue)
    case 0xDF => Opcode("dec rREG",            Register,                   Continue)
  }

  /** Opcodes 0xE0 to 0xEF. */
  function RowE(op: Byte): Opcode
    requires 0xE0 <= op <= 0xEF
  {
    match op
    case 0xE0 => Opcode("jmp @a",              Inherent,                   IndirectUnconditionalJump)
    case 0xE1 => Opcode("movw sp, a",          Inherent,                   Continue)
    case 0xE2 => Opcode("movw ix, a",          Inherent,                   Continue)
    case 0xE3 => Opcode("movw ep, a",          Inherent,                   Continue)
    case 0xE4 => Opcode("movw a, #IMW",        ImmediateWord,              Continue)
    case 0xE5 => Opcode("movw sp, #IMW",       ImmediateWord,              Continue)
    case 0xE6 => Opcode("movw ix, #IMW",       ImmediateWord,              Continue)
    case 0xE7 => Opcode("movw ep, #IMW",       ImmediateWord,              Continue)
    case 0xE8 => Opcode("callv #VEC",          Vector,                     IndirectSubroutineCall)
    case 0xE9 => Opcode("callv #VEC",          Vector,                     IndirectSubroutineCall)
    case 0xEA => Opcode("callv #VEC",          Vector,                     IndirectSubroutineCall)
    case 0xEB => Opcode("callv #VEC",          Vector,                     IndirectSubroutineCall)
    case 0xEC => Opcode("callv #VEC",          Vector,                     IndirectSubroutineCall)
    case 0xED => Opcode("callv #VEC",          Vector,                     IndirectSubroutineCall)
    case 0xEE => Opcode("callv #VEC",          Vector,                     IndirectSubroutineCall)
    case 0xEF => Opcode("callv #VEC",          Vector,                     IndirectSubroutineCall)
  }

  /** Opcodes 0xF0 to 0xFF. */
  function RowF(op: Byte): Opcode
    requires 0xF0 <= op <= 0xFF
  {
    match op
    case 0xF0 => Opcode("movw a, pc",          Inherent,                   Continue)
    case 0xF1 => Opcode("movw a, sp",          Inherent,                   Continue)
    case 0xF2 => Opcode("movw a, ix",          Inherent,                   Continue)
    case 0xF3 => Opcode("movw a, ep",          Inherent,                   Continue)
    case 0xF4 => Opcode("xchw a, pc",          Inherent,                   IndirectUnconditionalJump)
    case 0xF5 => Opcode("xchw a, sp",          Inherent,                   Continue)
    case 0xF6 => Opcode("xchw a, ix",          Inherent,                   Continue)
    case 0xF7 => Opcode("xchw a, ep",          Inherent,                   Continue)
    case 0xF8 => Opcode("bhs REL",             Relative,                   ConditionalJump)
    case 0xF9 => Opcode("blo REL",             Relative,                   ConditionalJump)
    case 0xFA => Opcode("bp REL",              Relative,                   ConditionalJump)
    case 0xFB => Opcode("bn REL",              Relative,                   ConditionalJump)
    case 0xFC => Opcode("bne REL",             Relative,                   ConditionalJump)
    case 0xFD => Opcode("beq REL",             Relative,                   ConditionalJump)
    case 0xFE => Opcode("bge REL",             Relative,                   ConditionalJump)
    case 0xFF => Opcode("blt REL",             Relative,                   ConditionalJump)
  }

  /** The conditional branches are exactly bbc/bbs (0xB0-0xBF) and the eight
      relative branches bhs .. blt (0xF8-0xFF). */
  lemma ConditionalJumpOpcodes(op: Byte)
    ensures Opcodes(op).flow == ConditionalJump <==> 0xB0 <= op <= 0xBF || 0xF8 <= op
  {
  }

  /** The returns are exactly ret (0x20) and reti (0x30). */
  lemma SubroutineReturnOpcodes(op: Byte)
    ensures Opcodes(op).flow == SubroutineReturn <==> op == 0x20 || op == 0x30
  {
  }

  /** The indirect jumps are exactly jmp @a (0xE0) and xchw a, pc (0xF4). */
  lemma IndirectJumpOpcodes(op: Byte)
    ensures Opcodes(op).flow == IndirectUnconditionalJump <==> op == 0xE0 || op == 0xF4
  {
  }

  /** jmp (0x21) is the only unconditional jump, call (0x31) the only direct
      call, and callv (0xE8-0xEF) the indirect calls. */
  lemma CallAndJumpOpcodes(op: Byte)
    ensures Opcodes(op).flow == UnconditionalJump <==> op == 0x21
    ensures Opcodes(op).flow == SubroutineCall <==> op == 0x31
    ensures Opcodes(op).flow == IndirectSubroutineCall <==> 0xE8 <= op <= 0xEF
  {
  }

  /** Every instruction that transfers control to a known target carries the
      target in its operands: jmp and call are Extended, the conditional
      branches are Relative or BitDirectWithRelative. */
  lemma TransferOpcodesHaveTargets(op: Byte)
    ensures Opcodes(op).flow in {UnconditionalJump, SubroutineCall} ==> Opcodes(op).mode == Extended
    ensures Opcodes(op).flow == ConditionalJump ==>
              Opcodes(op).mode in {Relative, BitDirectWithRelative}
  {
    CallAndJumpOpcodes(op);
    ConditionalJumpOpcodes(op);
    if Opcodes(op).flow == ConditionalJump {
      if op < 0xC0 { assert Opcodes(op) == RowB(op); } else { assert Opcodes(op) == RowF(op); }
    }
  }

  /** The word immediates are exactly movw a/sp/ix/ep, #IMW (0xE4-0xE7). */
  lemma ImmediateWordOpcodes(op: Byte)
    ensures Opcodes(op).mode == ImmediateWord <==> 0xE4 <= op <= 0xE7
  {
  }
}
