/** Branch slots (src/text.rs, `JumpOffset`, `LabelTarget`, `JumpTarget`).

    A slot is one 32-bit number packing the arity of the target block (2 bits), the number of
    operand words to drop (8 bits) and a signed 22-bit jump relative to the slot's own address.
    Shifts and masks are written as products, quotients and remainders by powers of two. */
module Label {
  import opened Values

  /** The reserved code address `JumpTarget::SENTINEL`. */
  const SENTINEL: int := 0xFFFF_FFFF

  const ARITY_UNIT: int := 0x4000_0000
  const DEPTH_UNIT: int := 0x40_0000

  /** `x as i32` for an `i64`-sized intermediate. */
  function WrapI32(x: int): int {
    var u := x % 0x1_0000_0000;
    if u < 0x8000_0000 then u else u - 0x1_0000_0000
  }

  /** An arithmetic shift right by ten places: Dafny's Euclidean quotient rounds down here. */
  function ShiftRight10(x: int): int { x / 0x400 }

  /** The source's test: shifting left and right again by ten gives the offset back. */
  predicate FitsJump(offset: int) {
    offset == ShiftRight10(WrapI32(offset * 0x400))
  }

  /** That test accepts exactly the signed 22-bit numbers. */
  lemma FitsJumpRange(offset: int)
    requires -0x8000_0000 <= offset < 0x8000_0000
    ensures FitsJump(offset) <==> -0x20_0000 <= offset < 0x20_0000
  {
    var q := (offset * 0x400) / 0x1_0000_0000;
    var u := (offset * 0x400) % 0x1_0000_0000;
    assert offset * 0x400 == q * 0x1_0000_0000 + u;
    assert u % 0x400 == 0 && u / 0x400 == offset - q * 0x40_0000;
  }

  /** `LabelTarget::new`. */
  function Pack(arity: nat, depth: nat, offset: int): U32
    requires arity < 4 && depth < 0x100
  {
    arity * ARITY_UNIT + depth * DEPTH_UNIT + offset % DEPTH_UNIT
  }

  function Arity(slot: U32): nat { slot / ARITY_UNIT }

  function Depth(slot: U32): nat { slot / DEPTH_UNIT % 0x100 }

  /** `LabelTarget::jump`: the low 22 bits, sign extended. */
  function Jump(slot: U32): int {
    var u := slot % DEPTH_UNIT;
    if u < 0x20_0000 then u else u - DEPTH_UNIT
  }

  /** `LabelTarget::with_jump`: keep the upper ten bits. */
  function WithJump(slot: U32, offset: int): U32 {
    slot - slot % DEPTH_UNIT + offset % DEPTH_UNIT
  }

  predicate IsSentinel(slot: U32) { Jump(slot) == 0 }

  lemma PackFields(arity: nat, depth: nat, offset: int)
    requires arity < 4 && depth < 0x100 && -0x20_0000 <= offset < 0x20_0000
    ensures Arity(Pack(arity, depth, offset)) == arity
    ensures Depth(Pack(arity, depth, offset)) == depth
    ensures Jump(Pack(arity, depth, offset)) == offset
  {
  }

  lemma WithJumpFields(slot: U32, offset: int)
    requires -0x20_0000 <= offset < 0x20_0000
    ensures Arity(WithJump(slot, offset)) == Arity(slot)
    ensures Depth(WithJump(slot, offset)) == Depth(slot)
    ensures Jump(WithJump(slot, offset)) == offset
  {
  }

  /** A slot is determined by its three fields, so packing loses nothing. */
  lemma PackOnto(slot: U32)
    ensures slot == Pack(Arity(slot), Depth(slot), Jump(slot))
  {
  }
}
