/** Small helpers shared by the decoders, the memory map and the tracer:
    an Option type, Python's list indexing, substring search and the two
    bit-field computations the decoders perform on bytes. */
module Support {
  import opened Tables

  datatype Option<T> = None | Some(value: T)

  /** Python's `s[i]` on a list or bytearray: a negative index counts from
      the end, and an index outside -|s| .. |s|-1 raises IndexError, which is
      None here. */
  function Subscript<T>(s: seq<T>, i: int): Option<T>
  {
    if 0 <= i < |s| then Some(s[i])
    else if -|s| <= i < 0 then Some(s[|s| + i])
    else None
  }

  /** A non-empty set has a member to pick. */
  lemma NonEmptyHasMember(s: set<int>)
    requires s != {}
    ensures exists x :: x in s
  {
    if forall x :: x !in s {
      assert false;
    }
  }

  /** Python's `sub in s` on strings. */
  predicate Contains(s: string, sub: string)
    decreases |s|
  {
    |sub| <= |s| && (s[..|sub|] == sub || Contains(s[1..], sub))
  }

  lemma {:induction false} ContainsAt(s: string, sub: string, i: nat)
    requires i + |sub| <= |s| && s[i..i + |sub|] == sub
    ensures Contains(s, sub)
    decreases i
  {
    if i > 0 {
      assert s[1..][i - 1..i - 1 + |sub|] == s[i..i + |sub|];
      ContainsAt(s[1..], sub, i - 1);
    }
  }

  /** A string that lacks the first character of `sub` does not contain `sub`. */
  lemma {:induction false} NotContains(s: string, sub: string)
    requires |sub| > 0 && sub[0] !in s
    ensures !Contains(s, sub)
    decreases |s|
  {
    if |sub| <= |s| {
      assert s[..|sub|][0] == s[0];
      assert s[0] in s;
      assert forall c :: c in s[1..] ==> c in s;
      NotContains(s[1..], sub);
    }
  }

  /** The byte read as a two's complement signed 8-bit number. */
  function Signed8(b: Byte): int
  {
    if b < 0x80 then b else b - 0x100
  }

  /** The displacement conversion of resolve_rel: when bit 7 is set, the
      displacement is replaced by the negation of (its complement plus one).
      On a byte, bit 7 (`& 0x80`) is set exactly when the byte is at least
      0x80, and the complement (`^ 0xFF`) is 0xFF minus the byte. */
  function Displacement(displacement: Byte): (d: int)
    ensures d == Signed8(displacement)
    ensures -0x80 <= d < 0x80 && (d - displacement) % 0x100 == 0
  {
    if displacement >= 0x80 then -((0xFF - displacement) + 1) else displacement
  }

  /** `opcode & 0b111`: the register, vector or bit number held in the low
      three bits of an opcode (for a non-negative number, masking with 0b111
      is the remainder modulo 8). */
  function LowThreeBits(opcode: Byte): (n: int)
    ensures 0 <= n < 8
  {
    opcode % 8
  }

  /** `(high << 8) + low`: the big-endian word made of two bytes. */
  function BigEndianWord(high: Byte, low: Byte): (w: Word)
    ensures w / 0x100 == high && w % 0x100 == low
  {
    high * 0x100 + low
  }
}
