/** The single-pass compiler as state transformers: the code builder's writes and backpatching and
    the text builder's validation (src/text.rs), driven by the visitor methods (src/compiler.rs)
    and bounded by `read_function_code` (src/code.rs).

    Code is one flat word sequence here; `CodeStore` shows that the pages behave as one. */
module Text {
  import opened Values
  import opened Label
  import opened Ir
  import opened Wasm

  datatype Error =
    | StackUnderflow
    | TypeMismatch
    | BlockResultTypeMismatch
    | BrTableResultTypeMismatch
    | InvalidLabelIndex
    | InvalidElseBlock
    | InvalidEndBlock
    | LabelStackJumpTooDeep
    | LabelJumpTooLarge
    | LocalIdxOutOfRange
    | FunctionIdxOutOfRange
    | IdxTooLarge
    | PossibleBackpatchCycle
    | PageFault
    | OutOfMemory
    | StackTooLarge
    | TooManyLocals
    | FunctionParametersTooLarge
    | MalformedCodeSize
    | InvalidCodeSectionFunctionCount
    | Eof

  const PAGE_WORDS: int := 256

  /** `CompilerOptions`, with the two generic limits of the text builder. */
  datatype Options = Options(
    maxIterations: Option<nat>, maxPages: nat, maxFrames: nat, maxStack: nat)

  /** Addresses stay below 2^31, the function frame fits, and heights fit 16 bits. */
  predicate OptionsOk(o: Options) {
    o.maxPages <= 0x80_0000 - 1 && 1 <= o.maxFrames && 2 * o.maxStack <= 0xFFFF
  }

  datatype BlockKind = Loop | Block | If

  datatype Operand = Unknown | Known(ty: ValType)

  /** For loops `target` is the loop's start; for the others it is the newest unresolved slot. */
  datatype Frame = Frame(
    kind: BlockKind, branch: ResultType, out: ResultType, height: nat, target: int, unreachable: bool)

  datatype State = State(
    code: seq<Word>, frames: seq<Frame>, values: seq<Operand>, highwater: nat, table: Option<ResultType>)

  /** What a function body is compiled against. */
  datatype Context = Context(
    sig: FuncSig, groups: seq<LocalGroup>, index: seq<FuncEntry>, options: Options)

  // ----- code -----

  function Emit(c: Context, st: State, ws: seq<Word>): Result<State, Error> {
    if |st.code| + |ws| > PAGE_WORDS * c.options.maxPages then Err(OutOfMemory)
    else Ok(st.(code := st.code + ws))
  }

  /** `write_32` at an existing address. */
  function SetSlot(code: seq<Word>, a: int, d: U32): (r: seq<Word>)
    requires SlotIn(code, a)
    ensures |r| == |code|
  {
    code[a := d % 0x1_0000][a + 1 := d / 0x1_0000]
  }

  /** `JumpOffset::new`. */
  function JumpOffset(current: int, to: int): Result<int, Error> {
    if to == SENTINEL then Ok(0)
    else if FitsJump(to - current) then Ok(to - current)
    else Err(LabelJumpTooLarge)
  }

  /** The iteration limit of a backpatch, tested after following `n` links. */
  predicate OverLimit(o: Options, n: nat) {
    o.maxIterations.Some? && n > o.maxIterations.value
  }

  /** The walk of `pop_control`: every slot of the chain from `a` is sent to `pc`; `n` links were
      followed before. A link that does not lead down never occurs (see `Chains`). */
  function Backpatch(o: Options, code: seq<Word>, a: int, pc: int, n: nat): Result<seq<Word>, Error>
    decreases if a < 0 then 0 else a + 1
  {
    if !SlotIn(code, a) then Err(PageFault)
    else
      var slot := Slot(code, a);
      var offset :- JumpOffset(a, pc);
      var patched := SetSlot(code, a, WithJump(slot, offset));
      if IsSentinel(slot) then Ok(patched)
      else if OverLimit(o, n + 1) then Err(PossibleBackpatchCycle)
      else if Jump(slot) > 0 then Err(PageFault)
      else Backpatch(o, patched, a + Jump(slot), pc, n + 1)
  }

  /** The walk of `pop_control_and_patch_if`: only the tail is sent to `pc`, and the slot before it,
      at `prev`, becomes the tail of what remains of the chain from `head`. */
  function SplitTail(o: Options, code: seq<Word>, head: int, a: int, prev: int, pc: int, n: nat):
    Result<(seq<Word>, int), Error>
    decreases if a < 0 then 0 else a + 1
  {
    if !SlotIn(code, a) then Err(PageFault)
    else
      var slot := Slot(code, a);
      if IsSentinel(slot) then
        var offset :- JumpOffset(a, pc);
        var patched := SetSlot(code, a, WithJump(slot, offset));
        if prev == SENTINEL then Ok((patched, SENTINEL))
        else if !SlotIn(patched, prev) then Err(PageFault)
        else Ok((SetSlot(patched, prev, WithJump(Slot(patched, prev), 0)), head))
      else if OverLimit(o, n + 1) then Err(PossibleBackpatchCycle)
      else if Jump(slot) > 0 then Err(PageFault)
      else SplitTail(o, code, head, a + Jump(slot), a, pc, n + 1)
  }

  // ----- operand types -----

  /** Word height up to the first operand of unknown type. */
  function Height(values: seq<Operand>): nat {
    if values == [] || values[0].Unknown? then 0 else Width(values[0].ty) + Height(values[1..])
  }

  function Truncate(values: seq<Operand>, n: nat): seq<Operand> {
    if n < |values| then values[..n] else values
  }

  lemma {:induction false} HeightTruncate(values: seq<Operand>, n: nat)
    ensures Height(Truncate(values, n)) <= Height(values)
  {
    if 0 < n < |values| && values[0].Known? {
      assert values[..n][1..] == values[1..][..n - 1];
      HeightTruncate(values[1..], n - 1);
    }
  }

  function PushOperand(c: Context, st: State, o: Operand): Result<State, Error> {
    if |st.values| >= c.options.maxStack then Err(OutOfMemory)
    else
      var values := st.values + [o];
      var h := Height(values);
      Ok(st.(values := values, highwater := if h > st.highwater then h else st.highwater))
  }

  function Innermost(st: State): Frame
    requires st.frames != []
  {
    st.frames[|st.frames| - 1]
  }

  /** `pop_stack_t`. */
  function PopAny(st: State): Result<(State, Operand), Error> {
    var (height, dead) := if st.frames == [] then (0, false) else (Innermost(st).height, Innermost(st).unreachable);
    if |st.values| <= height then
      if dead then Ok((st, Unknown)) else Err(StackUnderflow)
    else Ok((st.(values := st.values[..|st.values| - 1]), st.values[|st.values| - 1]))
  }

  /** `pop_stack`. */
  function PopExpect(st: State, want: Operand): Result<(State, Operand), Error> {
    var (st1, actual) :- PopAny(st);
    if actual.Unknown? then Ok((st1, want))
    else if want.Unknown? then Ok((st1, actual))
    else if actual != want then Err(TypeMismatch)
    else Ok((st1, actual))
  }

  function PopType(st: State, t: ValType): Result<State, Error> {
    var (st1, _) :- PopExpect(st, Known(t));
    Ok(st1)
  }

  function PopTypes(st: State, ts: seq<ValType>): Result<State, Error>
    decreases |ts|
  {
    if ts == [] then Ok(st)
    else
      var st1 :- PopType(st, ts[|ts| - 1]);
      PopTypes(st1, ts[..|ts| - 1])
  }

  function PopResult(st: State, r: ResultType): Result<State, Error> {
    if r.None? then Ok(st) else PopType(st, r.value)
  }

  function PushResult(c: Context, st: State, r: ResultType): Result<State, Error> {
    if r.None? then Ok(st) else PushOperand(c, st, Known(r.value))
  }

  function MarkUnreachable(st: State): State {
    if st.frames == [] then st
    else
      var f := Innermost(st);
      st.(values := Truncate(st.values, f.height),
          frames := st.frames[|st.frames| - 1 := f.(unreachable := true)])
  }

  // ----- control -----

  function PushControl(c: Context, st: State, kind: BlockKind, branch: ResultType, out: ResultType, target: int):
    Result<State, Error>
  {
    if |st.frames| >= c.options.maxFrames then Err(OutOfMemory)
    else Ok(st.(frames := st.frames + [Frame(kind, branch, out, |st.values|, target, false)]))
  }

  /** Operand words above the frame `f`, results included. */
  function Above(st: State, f: Frame): nat {
    HeightTruncate(st.values, f.height);
    Height(st.values) - Height(Truncate(st.values, f.height))
  }

  /** `write_label_target`. */
  function WriteLabelTarget(c: Context, st: State, l: nat): Result<(State, ResultType), Error> {
    if l >= |st.frames| then Err(InvalidLabelIndex)
    else
      var idx := |st.frames| - 1 - l;
      if idx == 0 then
        var st1 :- Emit(c, st, Words32(Pack(ResultWords(c.sig.result), 0, 0)));
        Ok((st1, c.sig.result))
      else
        var f := st.frames[idx];
        var pc := |st.code|;
        if Above(st, f) > 0xFF then Err(LabelStackJumpTooDeep)
        else
          var offset :- JumpOffset(pc, f.target);
          if f.kind == BlockKind.Loop then
            var st1 :- Emit(c, st, Words32(Pack(0, Above(st, f), offset)));
            Ok((st1, None))
          else
            var slot := Pack(ResultWords(f.out), Above(st, f), offset);
            var st1 :- Emit(c, st.(frames := st.frames[idx := f.(target := pc)]), Words32(slot));
            Ok((st1, f.branch))
  }

  /** The part shared by `pop_control` and `pop_control_and_patch_if`: check the results and drop
      the frame. */
  function DropFrame(st: State): Result<State, Error>
    requires st.frames != []
  {
    var f := Innermost(st);
    var st1 :- PopResult(st, f.out);
    if |st1.values| != f.height then Err(BlockResultTypeMismatch)
    else Ok(st1.(frames := st.frames[..|st.frames| - 1]))
  }

  /** `pop_control`. */
  function PopControl(c: Context, st: State): Result<(State, ResultType), Error> {
    if st.frames == [] then Err(InvalidEndBlock)
    else
      var f := Innermost(st);
      var st1 :- DropFrame(st);
      if f.kind == BlockKind.Loop then Ok((st1, f.out))
      else if f.kind == BlockKind.If && f.out.Some? then Err(BlockResultTypeMismatch)
      else if f.target == SENTINEL then Ok((st1, f.out))
      else
        var code :- Backpatch(c.options, st1.code, f.target, |st1.code|, 0);
        Ok((st1.(code := code), f.out))
  }

  // ----- visitor methods -----

  /** `loop_`. */
  function EnterLoop(c: Context, st: State, rt: ResultType): Result<State, Error> {
    PushControl(c, st, BlockKind.Loop, None, rt, |st.code|)
  }

  /** `enter_block`. */
  function EnterBlock(c: Context, st: State, rt: ResultType): Result<State, Error> {
    PushControl(c, st, BlockKind.Block, rt, rt, SENTINEL)
  }

  /** `if_`: the placeholder of the false branch is the first and last slot of the new chain. */
  function EnterIf(c: Context, st: State, rt: ResultType): Result<State, Error> {
    var st1 :- PopType(st, ValType.I32);
    var st2 :- Emit(c, st1, [Imm8(IF, 0)]);
    var st3 :- PushControl(c, st2, BlockKind.If, rt, rt, |st2.code|);
    Emit(c, st3, Words32(Pack(ResultWords(rt), 0, 0)))
  }

  /** `else_`. */
  function Else(c: Context, st: State): Result<State, Error> {
    var st1 :- Emit(c, st, [Imm8(BR, 0)]);
    var (st2, _) :- WriteLabelTarget(c, st1, 0);
    var f := Innermost(st2);
    if f.kind != BlockKind.If then Err(InvalidElseBlock)
    else
      var st3 :- DropFrame(st2);
      var (code, rest) :- SplitTail(c.options, st3.code, f.target, f.target, SENTINEL, |st3.code|, 0);
      PushControl(c, st3.(code := code), BlockKind.Block, f.out, f.out, rest)
  }

  /** `exit_block`. */
  function ExitBlock(c: Context, st: State): Result<State, Error> {
    var (st1, out) :- PopControl(c, st);
    PushResult(c, st1, out)
  }

  /** `finish`. */
  function Finish(c: Context, st: State): Result<State, Error> {
    var (st1, out) :- PopControl(c, st);
    Emit(c, st1, [Imm8(RETURN, ResultWords(out))])
  }

  function CheckTable(st: State, r: ResultType): Result<State, Error> {
    if st.table.None? then Ok(st.(table := Some(r)))
    else if st.table.value != r then Err(BrTableResultTypeMismatch)
    else Ok(st)
  }

  function CheckAndClearTable(st: State, r: ResultType): Result<State, Error> {
    if st.table.None? then Ok(st)
    else if st.table.value != r then Err(BrTableResultTypeMismatch)
    else Ok(st.(table := None))
  }

  function TableBranches(c: Context, st: State, ls: seq<nat>): Result<State, Error>
    decreases |ls|
  {
    if ls == [] then Ok(st)
    else
      var (st1, r) :- WriteLabelTarget(c, st, ls[0]);
      var st2 :- CheckTable(st1, r);
      TableBranches(c, st2, ls[1..])
  }

  function CompileBrTable(c: Context, st: State, ls: seq<nat>, default: nat): Result<State, Error> {
    var st1 :- PopType(st, ValType.I32);
    if |ls| > 0xFFFF then Err(IdxTooLarge)
    else
      var st2 :- Emit(c, st1, Imm8Or16(BR_TABLE, |ls|));
      var st3 :- TableBranches(c, st2, ls);
      var (st4, r) :- WriteLabelTarget(c, st3, default);
      var st5 :- CheckAndClearTable(st4, r);
      var st6 :- PopResult(st5, r);
      Ok(MarkUnreachable(st6))
  }

  function CompileBr(c: Context, st: State, l: nat): Result<State, Error> {
    var st1 :- Emit(c, st, [Imm8(BR, 0)]);
    var (st2, r) :- WriteLabelTarget(c, st1, l);
    var st3 :- PopResult(st2, r);
    Ok(MarkUnreachable(st3))
  }

  function CompileBrIf(c: Context, st: State, l: nat): Result<State, Error> {
    var st1 :- PopType(st, ValType.I32);
    var st2 :- Emit(c, st1, [Imm8(BR_IF, 0)]);
    var (st3, r) :- WriteLabelTarget(c, st2, l);
    var st4 :- PopResult(st3, r);
    PushResult(c, st4, r)
  }

  function CompileReturn(c: Context, st: State): Result<State, Error> {
    var st1 :- PopResult(st, c.sig.result);
    var st2 :- Emit(c, st1, [Imm8(RETURN, ResultWords(c.sig.result))]);
    Ok(MarkUnreachable(st2))
  }

  function CallInstr(ref: FuncRef): Instr {
    match ref
    case Local(i) => Instr.Call(i)
    case Extern(m, i) => CallExtern(m, i)
    case Host(m, i) => CallHost(m, i)
  }

  function CompileCall(c: Context, st: State, x: nat): Result<State, Error> {
    if x >= |c.index| then Err(FunctionIdxOutOfRange)
    else
      var e := c.index[x];
      var st1 :- PopTypes(st, e.sig.params);
      var st2 :- PushResult(c, st1, e.sig.result);
      Emit(c, st2, Encode(CallInstr(e.ref)))
  }

  function CompileDrop(c: Context, st: State): Result<State, Error> {
    var (st1, o) :- PopAny(st);
    Emit(c, st1, [Imm8(DROP, TypeTag(if o.Unknown? then ValType.I32 else o.ty))])
  }

  function CompileSelect(c: Context, st: State): Result<State, Error> {
    var st1 :- PopType(st, ValType.I32);
    var (st2, t1) :- PopAny(st1);
    var (st3, t2) :- PopExpect(st2, t1);
    var st4 :- PushOperand(c, st3, t2);
    Emit(c, st4, [Imm8(SELECT, TypeTag(if t2.Unknown? then ValType.I32 else t2.ty))])
  }

  function CompileNumeric(c: Context, st: State, op: NumOp): Result<State, Error> {
    var st1 :- PopTypes(st, NumParams(op));
    var st2 :- PushOperand(c, st1, Known(NumResult(op)));
    Emit(c, st2, [Imm8(NumOpcode(op), 0)])
  }

  function CompileConstant(c: Context, st: State, v: Value): Result<State, Error> {
    var st1 :- PushOperand(c, st, Known(v.Type()));
    Emit(c, st1, ConstWords(v))
  }

  // ----- locals -----

  datatype LocalVar = LocalVar(offset: I16, ty: ValType)

  /** The search of `get_local` through the declared groups; `index` is a 16-bit counter and wraps,
      `offset` is in words. */
  function FindLocal(groups: seq<LocalGroup>, x: Word, index: Word, offset: nat): Result<LocalVar, Error>
    requires index <= x
  {
    if groups == [] then Err(LocalIdxOutOfRange)
    else
      var g := groups[0];
      var end: Word := (index + g.count) % 0x1_0000;
      if end > x then
        var w := offset + Width(g.ty) * (x - index);
        if w > 0x7FFF - 2 then Err(LocalIdxOutOfRange) else Ok(LocalVar(w + 2, g.ty))
      else FindLocal(groups[1..], x, end, offset + Width(g.ty) * g.count)
  }

  /** `get_local`. Parameters lie below the frame header, locals after its two words. */
  function GetLocal(c: Context, x: nat): Result<LocalVar, Error> {
    if x > 0xFFFF then Err(LocalIdxOutOfRange)
    else if x < |c.sig.params| then
      var o := WordLen(c.sig.params[..x]) - WordLen(c.sig.params);
      if -0x8000 <= o < 0 then Ok(LocalVar(o, c.sig.params[x])) else Err(LocalIdxOutOfRange)
    else FindLocal(c.groups, x, |c.sig.params|, 0)
  }

  function CompileLocalGet(c: Context, st: State, x: nat): Result<State, Error> {
    var v :- GetLocal(c, x);
    var st1 :- PushOperand(c, st, Known(v.ty));
    Emit(c, st1, Encode(Instr.LocalGet(v.ty, v.offset)))
  }

  function CompileLocalSet(c: Context, st: State, x: nat): Result<State, Error> {
    var v :- GetLocal(c, x);
    var st1 :- PopType(st, v.ty);
    Emit(c, st1, Encode(Instr.LocalSet(v.ty, v.offset)))
  }

  function CompileLocalTee(c: Context, st: State, x: nat): Result<State, Error> {
    var v :- GetLocal(c, x);
    var st1 :- PopType(st, v.ty);
    var st2 :- PushOperand(c, st1, Known(v.ty));
    Emit(c, st2, Encode(Instr.LocalTee(v.ty, v.offset)))
  }

  // ----- bodies -----

  function CompileOp(c: Context, st: State, op: Op): Result<State, Error> {
    match op
    case Nop => Ok(st)
    case Unreachable => 
      var st1 :- Emit(c, st, [Imm8(UNREACHABLE, 0)]);
      Ok(MarkUnreachable(st1))
    case Const(v) => CompileConstant(c, st, v)
    case Num(o) => CompileNumeric(c, st, o)
    case Drop => CompileDrop(c, st)
    case Select => CompileSelect(c, st)
    case LocalGet(x) => CompileLocalGet(c, st, x)
    case LocalSet(x) => CompileLocalSet(c, st, x)
    case LocalTee(x) => CompileLocalTee(c, st, x)
    case Br(l) => CompileBr(c, st, l)
    case BrIf(l) => CompileBrIf(c, st, l)
    case BrTable(ls, d) => CompileBrTable(c, st, ls, d)
    case Return => CompileReturn(c, st)
    case Call(x) => CompileCall(c, st, x)
  }

  /** Compile a sequence; the tokens between its parts are the ones the decoder meets. */
  function Compile(c: Context, st: State, code: Code): Result<State, Error>
    decreases code
  {
    match code
    case Done => Ok(st)
    case Plain(op, next) =>
      var st1 :- CompileOp(c, st, op);
      Compile(c, st1, next)
    case Block(rt, body, next) =>
      var st1 :- EnterBlock(c, st, rt);
      var st2 :- Compile(c, st1, body);
      var st3 :- ExitBlock(c, st2);
      Compile(c, st3, next)
    case Loop(rt, body, next) =>
      var st1 :- EnterLoop(c, st, rt);
      var st2 :- Compile(c, st1, body);
      var st3 :- ExitBlock(c, st2);
      Compile(c, st3, next)
    case If(rt, thn, next) =>
      var st1 :- EnterIf(c, st, rt);
      var st2 :- Compile(c, st1, thn);
      var st3 :- ExitBlock(c, st2);
      Compile(c, st3, next)
    case IfElse(rt, thn, els, next) =>
      var st1 :- EnterIf(c, st, rt);
      var st2 :- Compile(c, st1, thn);
      var st3 :- Else(c, st2);
      var st4 :- Compile(c, st3, els);
      var st5 :- ExitBlock(c, st4);
      Compile(c, st5, next)
  }

  /** `TextBuilder::new` on the code compiled so far. */
  function Start(c: Context, code: seq<Word>): State {
    State(code, [Frame(BlockKind.Block, c.sig.result, c.sig.result, 0, SENTINEL, false)], [], 0, None)
  }

  datatype Compiled = Compiled(code: seq<Word>, usage: nat)

  /** `read_function_code` after the locals are read, and `Expr::read`. */
  function CompileFunc(c: Context, code: seq<Word>, body: Code): Result<Compiled, Error> {
    var locals := WordLen(GroupTypes(c.groups));
    if locals > 0xFFFF then Err(TooManyLocals)
    else
      var st :- Compile(c, Start(c, code), body);
      var st1 :- Finish(c, st);
      if st1.highwater > 0xFFFF || 2 + locals + st1.highwater > 0xFFFF then Err(StackTooLarge)
      else Ok(Compiled(st1.code, st1.highwater))
  }
}
