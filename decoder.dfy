/** The instruction decoder of architecture.py:104-140: the descriptor of the
    opcode byte plus the operand value resolved for its address mode. */
module Decoder {
  import opened Wrappers
  import opened Instructions

  /** ADDRESS_MASK: the address space is 2^15 bytes. */
  const AddressMask: int := 0x7FFF
  const AddressSpace: int := AddressMask + 1

  /** `x & ADDRESS_MASK` on unbounded integers. The mask has the form
      2^k - 1, so the bitwise and keeps the residue of `x` modulo 2^k, for
      negative `x` too. */
  function MaskAddress(x: int): (r: int)
    ensures 0 <= r <= AddressMask
    ensures (x - r) % AddressSpace == 0
  {
    x % AddressSpace
  }

  /** Masking leaves an address that is already in range unchanged, so it is
      idempotent. */
  lemma MaskKeepsAddresses(x: int)
    requires 0 <= x <= AddressMask
    ensures MaskAddress(x) == x
    ensures MaskAddress(MaskAddress(x)) == MaskAddress(x)
  {
  }

  /** The byte read as a two's-complement signed number. */
  function SignedByte(b: Byte): (d: int)
    ensures -128 <= d <= 127
    ensures (d - b) % 0x100 == 0
  {
    if b < 0x80 then b else b - 0x100
  }

  /** The byte that encodes a displacement. */
  function DisplacementByte(d: int): Byte
  {
    d % 0x100
  }

  /** Every displacement in a signed byte's range is encoded by one byte
      that reads back as that displacement. */
  lemma {:induction false} SignedByteRoundTrip(d: int)
    requires -128 <= d <= 127
    ensures SignedByte(DisplacementByte(d)) == d
  {
    if d < 0 {
      assert DisplacementByte(d) == d + 0x100;
    }
  }

  /** A big-endian 16-bit word, as `struct.unpack('>H', ...)` reads it. */
  function BigEndianWord(hi: Byte, lo: Byte): (w: int)
    ensures 0 <= w < 0x10000
    ensures w / 0x100 == hi && w % 0x100 == lo
  {
    hi * 0x100 + lo
  }

  /** The signed displacement of a relative instruction. Slicing a one-byte
      buffer at [1:2] yields no bytes, which reads as displacement 0. */
  function Displacement(data: seq<Byte>): (d: int)
    ensures -128 <= d <= 127
    ensures |data| >= 2 ==> (d - data[1]) % 0x100 == 0
    ensures |data| < 2 ==> d == 0
  {
    if |data| >= 2 then SignedByte(data[1]) else 0
  }

  /** A decoded instruction: the descriptor and the resolved operand value. */
  datatype Decoded = Decoded(desc: Descriptor, resolved: Option<int>)

  /** Both raise LookupError in the source: an opcode without a row, and a
      word operand that the buffer does not hold. */
  datatype DecodeError = InvalidOpcode(opcode: Byte, addr: int) | Undecodable(addr: int)

  /** An instruction of this mode and length reads its operand as the byte
      `data[1]` (an IndexError on a shorter buffer, which the source does not
      catch). */
  predicate ReadsOperandByte(mode: AddressMode, length: nat)
  {
    mode in {Direct, Indexed} || (mode == Immediate && length == 2)
  }

  /** The descriptor's operand is a 16-bit word. */
  predicate ReadsOperandWord(d: Descriptor)
  {
    d.mode == Extended || (d.mode == Immediate && d.length != 2)
  }

  /** Buffers the decoder handles without an uncaught IndexError: an opcode
      byte, and the operand byte whenever the row's mode indexes it. */
  predicate Decodable(data: seq<Byte>)
  {
    && |data| >= 1
    && (Instruction(data[0]).Some? ==>
          ReadsOperandByte(ModeOf(Instruction(data[0]).value), Instruction(data[0]).value.length) ==> |data| >= 2)
  }

  /** What the resolved value means, mode by mode, in terms of the bytes. */
  ghost predicate ResolvedFromBytes(x: Decoded, data: seq<Byte>, addr: int)
  {
    match x.desc.mode
    case Relative =>
      x.resolved.Some? && 0 <= x.resolved.value <= AddressMask
      && (x.resolved.value - (addr + x.desc.length + Displacement(data))) % AddressSpace == 0
    case Immediate =>
      if x.desc.length == 2 then |data| >= 2 && x.resolved == Some(data[1])
      else |data| >= 3 && x.resolved.Some? && WordFromBytes(x.resolved.value, data[1], data[2])
    case Extended =>
      |data| >= 3 && x.resolved.Some? && WordFromBytes(x.resolved.value, data[1], data[2])
    case Direct => |data| >= 2 && x.resolved == Some(data[1])
    case Indexed => |data| >= 2 && x.resolved == Some(data[1])
    case Accumulator => x.resolved.None?
    case Inherent => x.resolved.None?
  }

  /** A masked big-endian word keeps the low byte and the low seven bits of
      the high byte. */
  ghost predicate WordFromBytes(v: int, hi: Byte, lo: Byte)
  {
    0 <= v <= AddressMask && v / 0x100 == hi % 0x80 && v % 0x100 == lo
  }

  /** `struct.unpack('>H', ...) & ADDRESS_MASK` keeps the low byte and the
      low seven bits of the high byte. */
  lemma MaskedWord(hi: Byte, lo: Byte)
    ensures WordFromBytes(MaskAddress(BigEndianWord(hi, lo)), hi, lo)
  {
    var w := BigEndianWord(hi, lo);
    if hi < 0x80 {
      assert MaskAddress(w) == w;
    } else {
      var v := w - AddressSpace;
      assert v == (hi - 0x80) * 0x100 + lo;
      assert MaskAddress(w) == v;
    }
  }

  /** The operand value of an instruction with descriptor `d` at `addr`; an
      Undecodable failure when a word operand is cut short. */
  function Resolve(d: Descriptor, data: seq<Byte>, addr: int): (r: Result<Decoded, DecodeError>)
    requires |data| >= 1 && (ReadsOperandByte(d.mode, d.length) ==> |data| >= 2)
    ensures r.Failure? <==> ReadsOperandWord(d) && |data| < 3
    ensures r.Failure? ==> r.error == Undecodable(addr)
    ensures r.Success? ==> r.value.desc == d && ResolvedFromBytes(r.value, data, addr)
  {
    match d.mode
    case Relative => Success(Decoded(d, Some(MaskAddress(addr + d.length + Displacement(data)))))
    case Immediate =>
      if d.length == 2 then Success(Decoded(d, Some(data[1])))
      else if |data| < 3 then Failure(Undecodable(addr))
      else MaskedWord(data[1], data[2]); Success(Decoded(d, Some(MaskAddress(BigEndianWord(data[1], data[2])))))
    case Extended =>
      if |data| < 3 then Failure(Undecodable(addr))
      else MaskedWord(data[1], data[2]); Success(Decoded(d, Some(MaskAddress(BigEndianWord(data[1], data[2])))))
    case Indexed => Success(Decoded(d, Some(data[1])))
    case Direct => Success(Decoded(d, Some(data[1])))
    case Accumulator => Success(Decoded(d, None))
    case Inherent => Success(Decoded(d, None))
  }

  /** A relative operand resolves to the masked sum of the next address and
      the signed displacement. */
  lemma ResolveRelative(d: Descriptor, data: seq<Byte>, addr: int)
    requires |data| >= 1 && d.mode == Relative
    ensures Resolve(d, data, addr) == Success(Decoded(d, Some(MaskAddress(addr + d.length + Displacement(data)))))
  {
  }

  /** `_decode_instruction(data, addr)`: InvalidOpcode when the opcode has
      no row, otherwise the operand resolved for the row's mode. */
  function Decode(data: seq<Byte>, addr: int, dual: set<Byte>): (r: Result<Decoded, DecodeError>)
    requires Decodable(data)
    ensures r.Failure? && r.error.InvalidOpcode? <==> Instruction(data[0]).None?
    ensures r.Failure? && r.error.InvalidOpcode? ==> r.error == InvalidOpcode(data[0], addr)
    ensures Lookup(data[0], dual).Some? ==> r == Resolve(Lookup(data[0], dual).value, data, addr)
  {
    match Lookup(data[0], dual)
    case None => Failure(InvalidOpcode(data[0], addr))
    case Some(d) => Resolve(d, data, addr)
  }

  // ---- Re-encoding: the inverse of operand resolution ----

  /** The operand bytes that resolve to `resolved` at `addr`. */
  function EncodeOperand(d: Descriptor, resolved: Option<int>, addr: int): seq<Byte>
    requires d.mode in {Relative, Immediate, Extended, Direct, Indexed} ==> resolved.Some?
  {
    match d.mode
    case Relative => [DisplacementByte(resolved.value - addr - d.length)]
    case Immediate =>
      if d.length == 2 then [resolved.value % 0x100]
      else [(resolved.value / 0x100) % 0x100, resolved.value % 0x100]
    case Extended => [(resolved.value / 0x100) % 0x100, resolved.value % 0x100]
    case Direct => [resolved.value % 0x100]
    case Indexed => [resolved.value % 0x100]
    case Accumulator => []
    case Inherent => []
  }

  /** A relative target lies within one signed byte of the next instruction,
      counting modulo the address space. */
  predicate Reachable(target: int, next: int)
  {
    var d := (target - next) % AddressSpace;
    d <= 127 || d >= AddressSpace - 128
  }

  /** Bytes that differ by a multiple of the address space encode the
      same displacement byte. */
  lemma {:induction false} DisplacementModulo(x: int, k: int)
    ensures DisplacementByte(x + k * AddressSpace) == DisplacementByte(x)
  {
    assert k * AddressSpace == (k * 0x80) * 0x100;
  }

  /** A masked relative target re-encodes as the displacement byte it was
      computed from. */
  lemma {:induction false} RelativeTargetReencodes(b: Byte, next: int)
    ensures DisplacementByte(MaskAddress(next + SignedByte(b)) - next) == b
  {
    var disp := SignedByte(b);
    var v := MaskAddress(next + disp);
    var k := (v - (next + disp)) / AddressSpace;
    assert v - next == disp + k * AddressSpace;
    DisplacementModulo(disp, k);
  }

  /** Masking keeps the one residue in range. */
  lemma {:induction false} MaskOfResidue(x: int, k: int, r: int)
    requires 0 <= r <= AddressMask && x == r + k * AddressSpace
    ensures MaskAddress(x) == r
  {
  }

  /** The signed displacement between `next` and a reachable target. */
  function NearestDisplacement(v: int, next: int): (disp: int)
    requires Reachable(v, next)
    ensures -128 <= disp <= 127
    ensures (v - next - disp) % AddressSpace == 0
  {
    var m := (v - next) % AddressSpace;
    if m <= 127 then m else m - AddressSpace
  }

  /** A reachable target is the masked sum of the next address and the
      displacement its encoding carries. */
  lemma {:induction false} ReachableTargetResolves(v: int, next: int)
    requires 0 <= v <= AddressMask && Reachable(v, next)
    ensures MaskAddress(next + SignedByte(DisplacementByte(v - next))) == v
  {
    var disp := NearestDisplacement(v, next);
    var k := (v - next - disp) / AddressSpace;
    assert v - next == disp + k * AddressSpace;
    DisplacementModulo(disp, k);
    SignedByteRoundTrip(disp);
    MaskOfResidue(next + disp, -k, v);
  }

  /** Re-encoding a resolved operand gives back the instruction's bytes,
      except that a word operand comes back with the high bit the mask
      cleared. */
  lemma {:induction false} ReencodeResolved(d: Descriptor, data: seq<Byte>, addr: int)
    requires LengthFitsAddressMode(d)
    requires |data| >= d.length
    requires Resolve(d, data, addr).Success?
    ensures var x := Resolve(d, data, addr).value;
      if ReadsOperandWord(d) then
        && EncodeOperand(d, x.resolved, addr) == [data[1] % 0x80, data[2]]
        && (data[1] < 0x80 ==> [data[0]] + EncodeOperand(d, x.resolved, addr) == data[..d.length])
      else [data[0]] + EncodeOperand(d, x.resolved, addr) == data[..d.length]
  {
    var x := Resolve(d, data, addr).value;
    match d.mode
    case Relative =>
      RelativeTargetReencodes(data[1], addr + 2);
      assert data[..2] == [data[0], data[1]];
    case Immediate =>
      if d.length == 2 {
        assert data[..2] == [data[0], data[1]];
      } else {
        assert data[..3] == [data[0], data[1], data[2]];
      }
    case Extended =>
      assert data[..3] == [data[0], data[1], data[2]];
    case Direct =>
      assert data[..2] == [data[0], data[1]];
    case Indexed =>
      assert data[..2] == [data[0], data[1]];
    case Accumulator =>
      assert data[..1] == [data[0]];
    case Inherent =>
      assert data[..1] == [data[0]];
  }

  /** Decoding then re-encoding reproduces the instruction bytes whenever
      the mask cannot have dropped a bit. */
  lemma DecodeReencodes(data: seq<Byte>, addr: int, dual: set<Byte>, d: Descriptor)
    requires Decodable(data) && Lookup(data[0], dual) == Some(d)
    requires Decode(data, addr, dual).Success?
    requires |data| >= d.length
    requires ReadsOperandWord(d) ==> data[1] < 0x80
    ensures var x := Decode(data, addr, dual).value;
      x.desc == d && [data[0]] + EncodeOperand(d, x.resolved, addr) == data[..d.length]
  {
    DescriptorShape(data[0], dual);
    var x := Resolve(d, data, addr).value;
    assert Decode(data, addr, dual).value == x;
    ReencodeResolved(d, data, addr);
  }

  /** Operand values the encoding can carry for a descriptor. */
  predicate Encodable(d: Descriptor, resolved: Option<int>, addr: int)
  {
    match d.mode
    case Relative => resolved.Some? && 0 <= resolved.value <= AddressMask && Reachable(resolved.value, addr + d.length)
    case Immediate =>
      resolved.Some? && 0 <= resolved.value && resolved.value < (if d.length == 2 then 0x100 else AddressSpace)
    case Extended => resolved.Some? && 0 <= resolved.value <= AddressMask
    case Direct => resolved.Some? && 0 <= resolved.value < 0x100
    case Indexed => resolved.Some? && 0 <= resolved.value < 0x100
    case Accumulator => resolved.None?
    case Inherent => resolved.None?
  }

  /** An address written as two big-endian bytes reads back unchanged. */
  lemma {:induction false} WordRoundTrip(v: int)
    requires 0 <= v <= AddressMask
    ensures MaskAddress(BigEndianWord((v / 0x100) % 0x100, v % 0x100)) == v
  {
    assert BigEndianWord((v / 0x100) % 0x100, v % 0x100) == v;
  }

  /** Resolving the encoding of an operand value gives that value again. */
  lemma {:induction false} ResolveEncoded(d: Descriptor, opcode: Byte, resolved: Option<int>, addr: int)
    requires LengthFitsAddressMode(d)
    requires Encodable(d, resolved, addr)
    ensures var data := [opcode] + EncodeOperand(d, resolved, addr);
      |data| == d.length && Resolve(d, data, addr) == Success(Decoded(d, resolved))
  {
    var data := [opcode] + EncodeOperand(d, resolved, addr);
    match d.mode
    case Relative =>
      ReachableTargetResolves(resolved.value, addr + 2);
    case Immediate =>
      if d.length != 2 {
        WordRoundTrip(resolved.value);
      }
    case Extended =>
      WordRoundTrip(resolved.value);
    case Direct =>
    case Indexed =>
    case Accumulator =>
    case Inherent =>
  }

  /** Decoding the encoding of an operand value for an opcode resolves that
      value again. */
  lemma DecodeEncoded(opcode: Byte, resolved: Option<int>, addr: int, dual: set<Byte>)
    requires Lookup(opcode, dual).Some?
    requires Encodable(Lookup(opcode, dual).value, resolved, addr)
    ensures var d := Lookup(opcode, dual).value;
      var data := [opcode] + EncodeOperand(d, resolved, addr);
      Decodable(data) && Decode(data, addr, dual) == Success(Decoded(d, resolved))
  {
    var d := Lookup(opcode, dual).value;
    DescriptorShape(opcode, dual);
    ResolveEncoded(d, opcode, resolved, addr);
  }

  // ---- Boundary cases of the relative displacement ----

  /** 0x7F is the largest forward displacement and 0x80 the largest backward
      one; sign extension happens before masking, so a backward branch near
      address 0 wraps to the top of the address space. */
  lemma DisplacementBoundaries(addr: int)
    requires 0 <= addr
    ensures Decode([0x20, 0x7F], addr, {}).value.resolved == Some(MaskAddress(addr + 2 + 127))
    ensures Decode([0x20, 0x80], addr, {}).value.resolved == Some(MaskAddress(addr + 2 - 128))
    ensures Decode([0x20, 0x80], 0x10, {}).value.resolved == Some(0x7F92)
  {
    JumpsCoverModes();
  }

  /** LDA A immediate 0x2A: two bytes, operand 0x2A, at any address. */
  lemma LoadImmediateExample(addr: int)
    ensures Decode([0x86, 0x2A], addr, {}) == Success(Decoded(Descriptor(LDA, 2, Some(ACCA), Other, Immediate), Some(0x2A)))
  {
  }

  /** With the corrected row, the immediate stack-pointer load takes a
      whole word, masked like every other word operand. */
  lemma StackImmediateExample(addr: int)
    ensures Decode([0x8E, 0x92, 0x34], addr, {})
      == Success(Decoded(Descriptor(LOS, 3, None, Other, Immediate), Some(0x1234)))
  {
    MaskedWord(0x92, 0x34);
  }

  /** Opcode 0xCC has no row. */
  lemma InvalidOpcodeExample(addr: int)
    ensures Decode([0xCC], addr, {}) == Failure(InvalidOpcode(0xCC, addr))
  {
    UnassignedOpcodes(0xCC);
  }

  /** An extended jump whose operand word is cut short is undecodable. */
  lemma TruncatedOperandExample(addr: int)
    ensures Decode([0x7E, 0x12], addr, {}) == Failure(Undecodable(addr))
  {
    JumpsCoverModes();
  }
}
