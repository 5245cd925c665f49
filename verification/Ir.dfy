/** The intermediate representation: instruction encoders (src/text.rs, `instr_*`, `write_*`) and
    the decoder (src/ir_reader.rs, `visit_instruction`), for the modelled opcodes. */
module Ir {
  import opened Values

  // Opcodes (src/opcode.rs).
  const UNREACHABLE: U8 := 0x00
  const IF: U8 := 0x04
  const BR: U8 := 0x0C
  const BR_IF: U8 := 0x0D
  const BR_TABLE: U8 := 0x0E
  const RETURN: U8 := 0x0F
  const CALL: U8 := 0x10
  const CALL_HOST: U8 := 0x12
  const CALL_EXTERN: U8 := 0x13
  const DROP: U8 := 0x1A
  const SELECT: U8 := 0x1B
  const LOCAL_GET: U8 := 0x20
  const LOCAL_SET: U8 := 0x21
  const LOCAL_TEE: U8 := 0x22
  const I32_CONST: U8 := 0x41
  const I64_CONST: U8 := 0x42
  const F32_CONST: U8 := 0x43
  const F64_CONST: U8 := 0x44
  const I32_EQZ: U8 := 0x45
  const I64_EQZ: U8 := 0x50
  const I64_EQ: U8 := 0x51
  const I32_ADD: U8 := 0x6A
  const I32_DIV_U: U8 := 0x6E
  const I64_ADD: U8 := 0x7C
  const I32_WRAP_I64: U8 := 0xA7
  const I64_EXTEND_I32_U: U8 := 0xAD

  /** Numeric instructions: one of each stack shape, and one that can trap. */
  datatype NumOp = I32Eqz | I64Eqz | I64Eq | I32Add | I32DivU | I64Add | I32WrapI64 | I64ExtendI32U

  function NumOpcode(op: NumOp): U8 {
    match op
    case I32Eqz => I32_EQZ
    case I64Eqz => I64_EQZ
    case I64Eq => I64_EQ
    case I32Add => I32_ADD
    case I32DivU => I32_DIV_U
    case I64Add => I64_ADD
    case I32WrapI64 => I32_WRAP_I64
    case I64ExtendI32U => I64_EXTEND_I32_U
  }

  datatype Instr =
    | Unreachable
    | If(slot: U32)
    | Br(slot: U32)
    | BrIf(slot: U32)
    | BrTable(slots: seq<U32>)  // the cases, then the default
    | Return(size: U8)
    | Call(index: Word)
    | CallHost(module_: U8, index: Word)
    | CallExtern(module_: U8, index: Word)
    | Drop(ty: ValType)
    | Select(ty: ValType)
    | LocalGet(ty: ValType, offset: I16)
    | LocalSet(ty: ValType, offset: I16)
    | LocalTee(ty: ValType, offset: I16)
    | Const(value: Value)
    | Num(op: NumOp)

  // ----- encoders -----

  /** `instr_imm_8`: opcode in the upper byte, operand in the lower. */
  function Imm8(op: U8, imm: U8): Word { op * 0x100 + imm }

  /** `write_32`: low word first. */
  function Words32(d: U32): seq<Word> { [d % 0x1_0000, d / 0x1_0000] }

  function Words64(d: U64): seq<Word> {
    Words32(Low32(d)) + Words32(High32(d))
  }

  /** `instr_imm_8_or_16`, for an index already known to fit 16 bits. */
  function Imm8Or16(op: U8, idx: Word): seq<Word> {
    if idx < 0xFF then [Imm8(op, idx)] else [Imm8(op, 0xFF), idx]
  }

  function Imm8Or32(op: U8, i: U32): seq<Word> {
    if i < 0xFF then [Imm8(op, i)] else [Imm8(op, 0xFF)] + Words32(i)
  }

  function Imm8Or64(op: U8, i: U64): seq<Word> {
    if i < 0xFF then [Imm8(op, i)] else [Imm8(op, 0xFF)] + Words64(i)
  }

  /** `ValType as u8`. */
  function TypeTag(t: ValType): U8 {
    match t
    case I32 => 0
    case I64 => 1
    case F32 => 2
    case F64 => 3
  }

  /** `ValType::from_repr`. */
  function FromTag(tag: U8): Option<ValType> {
    match tag
    case 0 => Some(ValType.I32)
    case 1 => Some(ValType.I64)
    case 2 => Some(ValType.F32)
    case 3 => Some(ValType.F64)
    case _ => None
  }

  /** `frame_offset as u16`. */
  function OffsetWord(o: I16): Word { if o < 0 then o + 0x1_0000 else o }

  /** `word as i16`. */
  function WordOffset(w: Word): I16 { if w < 0x8000 then w else w - 0x1_0000 }

  function ConstWords(v: Value): seq<Word> {
    match v
    case I32(w) => Imm8Or32(I32_CONST, w)
    case I64(d) => Imm8Or64(I64_CONST, d)
    case F32(w) => [Imm8(F32_CONST, 0)] + Words32(w)
    case F64(d) => [Imm8(F64_CONST, 0)] + Words64(d)
  }

  function SlotWords(slots: seq<U32>): (ws: seq<Word>)
    ensures |ws| == 2 * |slots|
  {
    if slots == [] then []
    else SlotWords(slots[..|slots| - 1]) + Words32(slots[|slots| - 1])
  }

  /** What the encoders can express: a table of at most 65,535 cases and a default. */
  predicate Encodable(i: Instr) {
    i.BrTable? ==> 1 <= |i.slots| <= 0x1_0000
  }

  function Encode(i: Instr): seq<Word>
    requires Encodable(i)
  {
    match i
    case Unreachable => [Imm8(UNREACHABLE, 0)]
    case If(s) => [Imm8(IF, 0)] + Words32(s)
    case Br(s) => [Imm8(BR, 0)] + Words32(s)
    case BrIf(s) => [Imm8(BR_IF, 0)] + Words32(s)
    case BrTable(ss) => Imm8Or16(BR_TABLE, |ss| - 1) + SlotWords(ss)
    case Return(n) => [Imm8(RETURN, n)]
    case Call(x) => [Imm8(CALL, 0), x]
    case CallHost(m, x) => [Imm8(CALL_HOST, m), x]
    case CallExtern(m, x) => [Imm8(CALL_EXTERN, m), x]
    case Drop(t) => [Imm8(DROP, TypeTag(t))]
    case Select(t) => [Imm8(SELECT, TypeTag(t))]
    case LocalGet(t, o) => [Imm8(LOCAL_GET, TypeTag(t)), OffsetWord(o)]
    case LocalSet(t, o) => [Imm8(LOCAL_SET, TypeTag(t)), OffsetWord(o)]
    case LocalTee(t, o) => [Imm8(LOCAL_TEE, TypeTag(t)), OffsetWord(o)]
    case Const(v) => ConstWords(v)
    case Num(op) => [Imm8(NumOpcode(op), 0)]
  }

  // ----- decoder -----

  predicate SlotIn(code: seq<Word>, a: int) { 0 <= a && a + 2 <= |code| }

  /** `read_32` / `IrReader::read_u32` at `a`. */
  function Slot(code: seq<Word>, a: int): U32
    requires SlotIn(code, a)
  {
    var lo: int := code[a];
    var hi: int := code[a + 1];
    lo + hi * 0x1_0000
  }

  /** What a decode step finds: an instruction and the address after it, an opcode or immediate
      that cannot be interpreted, or an address outside the code. */
  datatype Decoded = Instr(instr: Instr, next: nat) | Malformed | OffEnd

  /** `if`, `br` and `br_if`. */
  function DecodeJump(code: seq<Word>, pc: nat, opcode: U8): Decoded {
    if !SlotIn(code, pc + 1) then OffEnd
    else
      var s := Slot(code, pc + 1);
      Decoded.Instr(if opcode == IF then If(s) else if opcode == BR then Br(s) else BrIf(s), pc + 3)
  }

  /** `call`, `call_host` and `call_extern`. */
  function DecodeCall(code: seq<Word>, pc: nat, opcode: U8, imm: U8): Decoded {
    if pc + 1 >= |code| then OffEnd
    else
      var x := code[pc + 1];
      Decoded.Instr(
        if opcode == CALL then Call(x) else if opcode == CALL_HOST then CallHost(imm, x) else CallExtern(imm, x),
        pc + 2)
  }

  /** `drop` and `select`. */
  function DecodeTyped(pc: nat, opcode: U8, imm: U8): Decoded {
    match FromTag(imm)
    case Some(t) => Decoded.Instr(if opcode == DROP then Drop(t) else Select(t), pc + 1)
    case None => Malformed
  }

  /** `local.get`, `local.set` and `local.tee`. */
  function DecodeLocal(code: seq<Word>, pc: nat, opcode: U8, imm: U8): Decoded {
    if pc + 1 >= |code| then OffEnd
    else
      match FromTag(imm)
      case Some(t) =>
        var o := WordOffset(code[pc + 1]);
        Decoded.Instr(
          if opcode == LOCAL_GET then LocalGet(t, o)
          else if opcode == LOCAL_SET then LocalSet(t, o)
          else LocalTee(t, o),
          pc + 2)
      case None => Malformed
  }

  /** `n` consecutive slots from `a`. */
  function SlotsAt(code: seq<Word>, a: nat, n: nat): (slots: seq<U32>)
    requires a + 2 * n <= |code|
    ensures |slots| == n
  {
    if n == 0 then [] else SlotsAt(code, a, n - 1) + [Slot(code, a + 2 * (n - 1))]
  }

  /** The slot table of a `br_table` with `n` cases starting at `a`. */
  function DecodeTable(code: seq<Word>, a: nat, n: nat): Decoded {
    if a + 2 * n + 2 > |code| then OffEnd
    else Decoded.Instr(BrTable(SlotsAt(code, a, n + 1)), a + 2 * n + 2)
  }

  function DecodeBrTable(code: seq<Word>, pc: nat, imm: U8): Decoded {
    if imm != 0xFF then DecodeTable(code, pc + 1, imm)
    else if pc + 1 < |code| then DecodeTable(code, pc + 2, code[pc + 1])
    else OffEnd
  }

  /** `i32.const` and `f32.const` with a full immediate. */
  function DecodeConst32(code: seq<Word>, pc: nat, opcode: U8): Decoded {
    if !SlotIn(code, pc + 1) then OffEnd
    else
      var w := Slot(code, pc + 1);
      Decoded.Instr(Const(if opcode == I32_CONST then Value.I32(w) else Value.F32(w)), pc + 3)
  }

  /** `i64.const` and `f64.const` with a full immediate. */
  function DecodeConst64(code: seq<Word>, pc: nat, opcode: U8): Decoded {
    if !SlotIn(code, pc + 3) then OffEnd
    else
      var d := Join64(Slot(code, pc + 1), Slot(code, pc + 3));
      Decoded.Instr(Const(if opcode == I64_CONST then Value.I64(d) else Value.F64(d)), pc + 5)
  }

  function NumFromOpcode(opcode: U8): Option<NumOp> {
    if opcode == I32_EQZ then Some(I32Eqz)
    else if opcode == I64_EQZ then Some(I64Eqz)
    else if opcode == I64_EQ then Some(I64Eq)
    else if opcode == I32_ADD then Some(I32Add)
    else if opcode == I32_DIV_U then Some(I32DivU)
    else if opcode == I64_ADD then Some(I64Add)
    else if opcode == I32_WRAP_I64 then Some(I32WrapI64)
    else if opcode == I64_EXTEND_I32_U then Some(I64ExtendI32U)
    else None
  }

  function Decode(code: seq<Word>, pc: nat): Decoded {
    if pc >= |code| then OffEnd
    else
      var opcode: U8 := code[pc] / 0x100;
      var imm: U8 := code[pc] % 0x100;
      if opcode == UNREACHABLE then Decoded.Instr(Unreachable, pc + 1)
      else if opcode == IF || opcode == BR || opcode == BR_IF then DecodeJump(code, pc, opcode)
      else if opcode == BR_TABLE then DecodeBrTable(code, pc, imm)
      else if opcode == RETURN then Decoded.Instr(Return(imm), pc + 1)
      else if opcode == CALL || opcode == CALL_HOST || opcode == CALL_EXTERN then DecodeCall(code, pc, opcode, imm)
      else if opcode == DROP || opcode == SELECT then DecodeTyped(pc, opcode, imm)
      else if opcode == LOCAL_GET || opcode == LOCAL_SET || opcode == LOCAL_TEE then
        DecodeLocal(code, pc, opcode, imm)
      else if opcode == I32_CONST && imm != 0xFF then Decoded.Instr(Const(Value.I32(imm)), pc + 1)
      else if opcode == I64_CONST && imm != 0xFF then Decoded.Instr(Const(Value.I64(imm)), pc + 1)
      else if opcode == I32_CONST || opcode == F32_CONST then DecodeConst32(code, pc, opcode)
      else if opcode == I64_CONST || opcode == F64_CONST then DecodeConst64(code, pc, opcode)
      else
        match NumFromOpcode(opcode)
        case Some(op) => Decoded.Instr(Num(op), pc + 1)
        case None => Malformed
  }

  // ----- round trip -----

  /** `ws` lies in `code` from `a`. */
  predicate At(code: seq<Word>, a: nat, ws: seq<Word>) {
    a + |ws| <= |code| && forall k {:trigger ws[k]} :: 0 <= k < |ws| ==> code[a + k] == ws[k]
  }

  lemma AtPrefix(code: seq<Word>, a: nat, ws: seq<Word>, more: seq<Word>)
    requires At(code, a, ws + more)
    ensures At(code, a, ws) && At(code, a + |ws|, more)
  {
    assert forall k :: 0 <= k < |ws| ==> ws[k] == (ws + more)[k];
    assert forall k :: 0 <= k < |more| ==> more[k] == (ws + more)[|ws| + k];
  }

  lemma AtSlot(code: seq<Word>, a: nat, ws: seq<Word>, k: nat, d: U32)
    requires At(code, a, ws) && k + 2 <= |ws|
    requires ws[k] == d % 0x1_0000 && ws[k + 1] == d / 0x1_0000
    ensures SlotIn(code, a + k) && Slot(code, a + k) == d
  {
  }

  lemma {:induction false} AtTable(code: seq<Word>, a: nat, slots: seq<U32>)
    requires At(code, a, SlotWords(slots))
    ensures a + 2 * |slots| <= |code| && SlotsAt(code, a, |slots|) == slots
  {
    if slots != [] {
      var n := |slots| - 1;
      AtPrefix(code, a, SlotWords(slots[..n]), Words32(slots[n]));
      AtTable(code, a, slots[..n]);
      AtSlot(code, a + 2 * n, Words32(slots[n]), 0, slots[n]);
    }
  }

  lemma DecodeEncodeConst(code: seq<Word>, a: nat, v: Value)
    requires At(code, a, ConstWords(v))
    ensures Decode(code, a) == Decoded.Instr(Const(v), a + |ConstWords(v)|)
  {
    var ws := ConstWords(v);
    assert code[a] == ws[0];
    match v
    case I32(w) => if w >= 0xFF { AtSlot(code, a, ws, 1, w); }
    case F32(w) => AtSlot(code, a, ws, 1, w);
    case I64(d) =>
      if d >= 0xFF {
        AtSlot(code, a, ws, 1, Low32(d));
        AtSlot(code, a, ws, 3, High32(d));
      }
    case F64(d) =>
      AtSlot(code, a, ws, 1, Low32(d));
      AtSlot(code, a, ws, 3, High32(d));
  }

  lemma DecodeTableSlots(code: seq<Word>, a: nat, slots: seq<U32>)
    requires 1 <= |slots| && a + 2 * |slots| <= |code| && SlotsAt(code, a, |slots|) == slots
    ensures DecodeTable(code, a, |slots| - 1) == Decoded.Instr(BrTable(slots), a + 2 * |slots|)
  {
  }

  lemma DecodeEncodeTable(code: seq<Word>, a: nat, slots: seq<U32>)
    requires 1 <= |slots| <= 0x1_0000
    requires At(code, a, Imm8Or16(BR_TABLE, |slots| - 1) + SlotWords(slots))
    ensures Decode(code, a)
         == Decoded.Instr(BrTable(slots), a + |Imm8Or16(BR_TABLE, |slots| - 1)| + 2 * |slots|)
  {
    var head := Imm8Or16(BR_TABLE, |slots| - 1);
    var h := |head|;
    AtPrefix(code, a, head, SlotWords(slots));
    AtTable(code, a + h, slots);
    assert code[a] == head[0];
    if h == 2 { assert code[a + 1] == head[1]; }
    DecodeTableSlots(code, a + h, slots);
  }

  lemma DecodeEncodeJump(code: seq<Word>, a: nat, opcode: U8, slot: U32)
    requires opcode == IF || opcode == BR || opcode == BR_IF
    requires At(code, a, [Imm8(opcode, 0)] + Words32(slot))
    ensures Decode(code, a)
         == Decoded.Instr(if opcode == IF then If(slot) else if opcode == BR then Br(slot) else BrIf(slot), a + 3)
  {
    var ws := [Imm8(opcode, 0)] + Words32(slot);
    assert code[a] == ws[0];
    AtSlot(code, a, ws, 1, slot);
  }

  lemma DecodeEncodeOne(code: seq<Word>, a: nat, i: Instr)
    requires i.Unreachable? || i.Return? || i.Drop? || i.Select? || i.Num?
    requires At(code, a, Encode(i))
    ensures Decode(code, a) == Decoded.Instr(i, a + 1)
  {
    assert code[a] == Encode(i)[0];
  }

  lemma DecodeEncodeTwo(code: seq<Word>, a: nat, i: Instr)
    requires i.Call? || i.CallHost? || i.CallExtern? || i.LocalGet? || i.LocalSet? || i.LocalTee?
    requires At(code, a, Encode(i))
    ensures Decode(code, a) == Decoded.Instr(i, a + 2)
  {
    assert code[a] == Encode(i)[0] && code[a + 1] == Encode(i)[1];
  }

  /** Decoding where an instruction was emitted gives that instruction and the next start. */
  lemma DecodeEncode(code: seq<Word>, a: nat, i: Instr)
    requires Encodable(i) && At(code, a, Encode(i))
    ensures Decode(code, a) == Decoded.Instr(i, a + |Encode(i)|)
  {
    if i.If? {
      DecodeEncodeJump(code, a, IF, i.slot);
    } else if i.Br? {
      DecodeEncodeJump(code, a, BR, i.slot);
    } else if i.BrIf? {
      DecodeEncodeJump(code, a, BR_IF, i.slot);
    } else if i.BrTable? {
      DecodeEncodeTable(code, a, i.slots);
    } else if i.Const? {
      DecodeEncodeConst(code, a, i.value);
    } else if i.Unreachable? || i.Return? || i.Drop? || i.Select? || i.Num? {
      DecodeEncodeOne(code, a, i);
    } else {
      DecodeEncodeTwo(code, a, i);
    }
  }

  // ----- sequences -----

  predicate AllEncodable(is_: seq<Instr>) { forall i :: 0 <= i < |is_| ==> Encodable(is_[i]) }

  function EncodeAll(is_: seq<Instr>): seq<Word>
    requires AllEncodable(is_)
  {
    if is_ == [] then [] else Encode(is_[0]) + EncodeAll(is_[1..])
  }

  /** `n` instructions from `a` on, and the address behind them. */
  function DecodeMany(code: seq<Word>, a: nat, n: nat): Option<(seq<Instr>, nat)>
    decreases n
  {
    if n == 0 then Some(([], a))
    else
      var d := Decode(code, a);
      if !d.Instr? then None
      else
        var rest := DecodeMany(code, d.next, n - 1);
        if rest.None? then None else Some(([d.instr] + rest.value.0, rest.value.1))
  }

  /** Reading on from the start of any emitted sequence finds the same instructions, each at the
      address where the one before it ended. */
  lemma {:induction false} DecodeEncodeAll(code: seq<Word>, a: nat, is_: seq<Instr>)
    requires AllEncodable(is_) && At(code, a, EncodeAll(is_))
    ensures DecodeMany(code, a, |is_|) == Some((is_, a + |EncodeAll(is_)|))
    decreases |is_|
  {
    hide Decode, Encode;
    if is_ != [] {
      AtPrefix(code, a, Encode(is_[0]), EncodeAll(is_[1..]));
      DecodeEncode(code, a, is_[0]);
      DecodeEncodeAll(code, a + |Encode(is_[0])|, is_[1..]);
      assert is_ == [is_[0]] + is_[1..];
    }
  }
}
