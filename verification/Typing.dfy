/** The operand-type stack during compilation (src/text.rs, `push_stack` to `pop_control`), in live
    and in unreachable code. */
module Typing {
  import opened Values
  import opened Label
  import opened Ir
  import opened Wasm
  import opened Text
  import opened Frames

  /** Frames start at rising heights inside the stack, and the high-water mark covers the stack. */
  predicate StackOk(st: State) {
    && st.frames != [] && st.frames[0].height == 0
    && (forall i, j :: 0 <= i <= j < |st.frames| ==> st.frames[i].height <= st.frames[j].height)
    && Innermost(st).height <= |st.values|
    && Height(st.values) <= st.highwater
    && forall i :: 1 <= i < |st.frames| && !st.frames[i].kind.Loop? ==> st.frames[i].branch == st.frames[i].out
  }

  /** What compiling inside a frame keeps: the operands under the frame, the frames, and the dead
      marks of the frames around it. */
  predicate StackStep(st: State, st': State) {
    && st.frames != [] && SameShape(st, st')
    && (var h := Innermost(st).height;
        h <= |st.values| && h <= |st'.values| && st'.values[..h] == st.values[..h])
    && st.highwater <= st'.highwater
    && forall i :: 0 <= i < |st.frames| - 1 ==> st'.frames[i].unreachable == st.frames[i].unreachable
  }

  lemma StackStepTrans(st: State, st1: State, st2: State)
    requires StackStep(st, st1) && StackStep(st1, st2)
    ensures StackStep(st, st2)
  {
    assert Innermost(st1).height == Innermost(st).height;
  }

  // ----- popping -----

  /** `st'` is `st` with some operands of the innermost frame taken off. */
  predicate Popped(st: State, st': State) {
    && st.frames != [] && st' == st.(values := st'.values)
    && st'.values <= st.values && Innermost(st).height <= |st'.values|
  }

  lemma PopExpectPops(st: State, want: Operand)
    requires st.frames != [] && Innermost(st).height <= |st.values| && PopExpect(st, want).Ok?
    ensures Popped(st, PopExpect(st, want).value.0)
  {
  }

  lemma {:induction false} PopTypesPops(st: State, ts: seq<ValType>)
    requires st.frames != [] && Innermost(st).height <= |st.values| && PopTypes(st, ts).Ok?
    ensures Popped(st, PopTypes(st, ts).value)
    decreases |ts|
  {
    if ts != [] {
      var t := ts[|ts| - 1];
      PopExpectPops(st, Known(t));
      PopTypesPops(PopType(st, t).value, ts[..|ts| - 1]);
    }
  }

  lemma PopResultPops(st: State, r: ResultType)
    requires st.frames != [] && Innermost(st).height <= |st.values| && PopResult(st, r).Ok?
    ensures Popped(st, PopResult(st, r).value)
  {
    if r.Some? { PopExpectPops(st, Known(r.value)); }
  }

  lemma PoppedOk(st: State, st': State)
    requires StackOk(st) && Popped(st, st')
    ensures StackOk(st') && StackStep(st, st')
  {
    HeightTruncate(st.values, |st'.values|);
    assert Truncate(st.values, |st'.values|) == st'.values;
  }

  // ----- other changes -----

  lemma PushOk(c: Context, st: State, o: Operand)
    requires StackOk(st) && PushOperand(c, st, o).Ok?
    ensures StackOk(PushOperand(c, st, o).value) && StackStep(st, PushOperand(c, st, o).value)
  {
  }

  lemma PushResultOk(c: Context, st: State, r: ResultType)
    requires StackOk(st) && PushResult(c, st, r).Ok?
    ensures StackOk(PushResult(c, st, r).value) && StackStep(st, PushResult(c, st, r).value)
  {
  }

  lemma MarkOk(st: State)
    requires StackOk(st)
    ensures StackOk(MarkUnreachable(st)) && StackStep(st, MarkUnreachable(st))
  {
    HeightTruncate(st.values, Innermost(st).height);
  }

  /** Steps that write code but leave the operand types alone. */
  lemma CodeOnlyOk(st: State, st': State)
    requires StackOk(st) && SameShape(st, st') && st'.values == st.values && st'.highwater == st.highwater
    requires forall i :: 0 <= i < |st.frames| ==> st'.frames[i].unreachable == st.frames[i].unreachable
    ensures StackOk(st') && StackStep(st, st')
  {
  }

  lemma LabelOk(c: Context, st: State, l: nat)
    requires StackOk(st) && WriteLabelTarget(c, st, l).Ok?
    ensures var (st', r) := WriteLabelTarget(c, st, l).value;
            && StackOk(st') && StackStep(st, st')
            && st'.values == st.values && st'.highwater == st.highwater && |st'.frames| == |st.frames|
            && r == LabelType(c, st, |st.frames| - 1 - l)
            && (forall i :: 0 <= i < |st.frames| ==> st'.frames[i].unreachable == st.frames[i].unreachable)
  {
    hide Pack, Above, JumpOffset, Words32;
    CodeOnlyOk(st, WriteLabelTarget(c, st, l).value.0);
  }

  /** The operands a branch to frame `idx` carries. */
  function LabelType(c: Context, st: State, idx: nat): ResultType
    requires idx < |st.frames|
  {
    if idx == 0 then c.sig.result
    else if st.frames[idx].kind.Loop? then None
    else st.frames[idx].out
  }

  lemma {:induction false} TableOk(c: Context, st: State, ls: seq<nat>)
    requires StackOk(st) && TableBranches(c, st, ls).Ok?
    ensures StackOk(TableBranches(c, st, ls).value) && StackStep(st, TableBranches(c, st, ls).value)
    ensures TableBranches(c, st, ls).value.values == st.values
    decreases |ls|
  {
    if ls == [] {
      CodeOnlyOk(st, st);
    } else {
      hide StackOk, StackStep, WriteLabelTarget;
      LabelOk(c, st, ls[0]);
      var (st1, r) := WriteLabelTarget(c, st, ls[0]).value;
      var st2 := CheckTable(st1, r).value;
      CodeOnlyOk(st1, st2);
      TableOk(c, st2, ls[1..]);
      StackStepTrans(st, st1, st2);
      StackStepTrans(st, st2, TableBranches(c, st, ls).value);
    }
  }

  // ----- instructions -----

  lemma EmitOk(c: Context, st: State, ws: seq<Word>)
    requires StackOk(st) && Emit(c, st, ws).Ok?
    ensures StackOk(Emit(c, st, ws).value) && StackStep(st, Emit(c, st, ws).value)
  {
    CodeOnlyOk(st, Emit(c, st, ws).value);
  }

  /** Pop, push, emit: the shape of every instruction that is not a branch. */
  lemma PopPushEmitOk(c: Context, st: State, st1: State, st2: State, st3: State)
    requires StackOk(st) && Popped(st, st1)
    requires st2 == st1 || (exists o :: PushOperand(c, st1, o) == Result.Ok(st2))
    requires exists ws :: Emit(c, st2, ws) == Result.Ok(st3)
    ensures StackOk(st3) && StackStep(st, st3)
  {
    PoppedOk(st, st1);
    if st2 != st1 {
      var o :| PushOperand(c, st1, o) == Result.Ok(st2);
      PushOk(c, st1, o);
      StackStepTrans(st, st1, st2);
    }
    var ws :| Emit(c, st2, ws) == Result.Ok(st3);
    EmitOk(c, st2, ws);
    StackStepTrans(st, st2, st3);
  }

  lemma PushOrSame(c: Context, st: State, r: ResultType)
    requires PushResult(c, st, r).Ok?
    ensures PushResult(c, st, r).value == st || exists o :: PushOperand(c, st, o) == PushResult(c, st, r)
  {
    if r.Some? { assert PushOperand(c, st, Known(r.value)) == PushResult(c, st, r); }
  }

  lemma NumericOk(c: Context, st: State, op: NumOp)
    requires StackOk(st) && CompileNumeric(c, st, op).Ok?
    ensures StackOk(CompileNumeric(c, st, op).value) && StackStep(st, CompileNumeric(c, st, op).value)
  {
    hide StackOk, StackStep, Emit, PushOperand, PopTypes, NumParams;
    InFrame(st);
    PopTypesPops(st, NumParams(op));
    var st1 := PopTypes(st, NumParams(op)).value;
    var st2 := PushOperand(c, st1, Known(NumResult(op))).value;
    var ws := [Imm8(NumOpcode(op), 0)];
    assert Emit(c, st2, ws) == CompileNumeric(c, st, op);
    PopPushEmitOk(c, st, st1, st2, CompileNumeric(c, st, op).value);
  }

  lemma InFrame(st: State)
    requires StackOk(st)
    ensures st.frames != [] && Innermost(st).height <= |st.values|
  {
  }

  lemma CallOk(c: Context, st: State, x: nat)
    requires StackOk(st) && CompileCall(c, st, x).Ok?
    ensures StackOk(CompileCall(c, st, x).value) && StackStep(st, CompileCall(c, st, x).value)
  {
    hide StackOk, StackStep, Emit, PushOperand, PopTypes, Encode, PushResult;
    InFrame(st);
    var e := c.index[x];
    PopTypesPops(st, e.sig.params);
    var st1 := PopTypes(st, e.sig.params).value;
    PushOrSame(c, st1, e.sig.result);
    var st2 := PushResult(c, st1, e.sig.result).value;
    assert Emit(c, st2, Encode(CallInstr(e.ref))) == CompileCall(c, st, x);
    PopPushEmitOk(c, st, st1, st2, CompileCall(c, st, x).value);
  }

  lemma SelectOk(c: Context, st: State)
    requires StackOk(st) && CompileSelect(c, st).Ok?
    ensures StackOk(CompileSelect(c, st).value) && StackStep(st, CompileSelect(c, st).value)
  {
    hide StackOk, StackStep, Emit, PushOperand, TypeTag, Imm8;
    InFrame(st);
    var st1 := PopType(st, ValType.I32).value;
    PopExpectPops(st, Known(ValType.I32));
    var (st2, t1) := PopAny(st1).value;
    PopExpectPops(st1, Unknown);
    var (st3, t2) := PopExpect(st2, t1).value;
    PopExpectPops(st2, t1);
    var st4 := PushOperand(c, st3, t2).value;
    var ws := [Imm8(SELECT, TypeTag(if t2.Unknown? then ValType.I32 else t2.ty))];
    assert Emit(c, st4, ws) == CompileSelect(c, st);
    PopPushEmitOk(c, st, st3, st4, CompileSelect(c, st).value);
  }

  lemma DropOk(c: Context, st: State)
    requires StackOk(st) && CompileDrop(c, st).Ok?
    ensures StackOk(CompileDrop(c, st).value) && StackStep(st, CompileDrop(c, st).value)
  {
    hide StackOk, StackStep, Emit, TypeTag, Imm8;
    InFrame(st);
    var (st1, o) := PopAny(st).value;
    PopExpectPops(st, Unknown);
    var ws := [Imm8(DROP, TypeTag(if o.Unknown? then ValType.I32 else o.ty))];
    assert Emit(c, st1, ws) == CompileDrop(c, st);
    PopPushEmitOk(c, st, st1, st1, CompileDrop(c, st).value);
  }

  lemma ConstantOk(c: Context, st: State, v: Value)
    requires StackOk(st) && CompileConstant(c, st, v).Ok?
    ensures StackOk(CompileConstant(c, st, v).value) && StackStep(st, CompileConstant(c, st, v).value)
  {
    hide StackOk, StackStep, Emit, ConstWords, PushOperand;
    InFrame(st);
    var st2 := PushOperand(c, st, Known(v.Type())).value;
    assert Emit(c, st2, ConstWords(v)) == CompileConstant(c, st, v);
    PopPushEmitOk(c, st, st, st2, CompileConstant(c, st, v).value);
  }

  lemma LocalGetOk(c: Context, st: State, x: nat)
    requires StackOk(st) && CompileLocalGet(c, st, x).Ok?
    ensures StackOk(CompileLocalGet(c, st, x).value) && StackStep(st, CompileLocalGet(c, st, x).value)
  {
    hide StackOk, StackStep, Emit, PushOperand, GetLocal, Encode;
    InFrame(st);
    var v := GetLocal(c, x).value;
    var st2 := PushOperand(c, st, Known(v.ty)).value;
    assert Emit(c, st2, Encode(Instr.LocalGet(v.ty, v.offset))) == CompileLocalGet(c, st, x);
    PopPushEmitOk(c, st, st, st2, CompileLocalGet(c, st, x).value);
  }

  lemma LocalSetOk(c: Context, st: State, x: nat)
    requires StackOk(st) && CompileLocalSet(c, st, x).Ok?
    ensures StackOk(CompileLocalSet(c, st, x).value) && StackStep(st, CompileLocalSet(c, st, x).value)
  {
    hide StackOk, StackStep, Emit, GetLocal, Encode;
    InFrame(st);
    var v := GetLocal(c, x).value;
    PopExpectPops(st, Known(v.ty));
    var st1 := PopType(st, v.ty).value;
    assert Emit(c, st1, Encode(Instr.LocalSet(v.ty, v.offset))) == CompileLocalSet(c, st, x);
    PopPushEmitOk(c, st, st1, st1, CompileLocalSet(c, st, x).value);
  }

  lemma LocalTeeOk(c: Context, st: State, x: nat)
    requires StackOk(st) && CompileLocalTee(c, st, x).Ok?
    ensures StackOk(CompileLocalTee(c, st, x).value) && StackStep(st, CompileLocalTee(c, st, x).value)
  {
    hide StackOk, StackStep, Emit, PushOperand, GetLocal, Encode;
    InFrame(st);
    var v := GetLocal(c, x).value;
    PopExpectPops(st, Known(v.ty));
    var st1 := PopType(st, v.ty).value;
    var st2 := PushOperand(c, st1, Known(v.ty)).value;
    assert Emit(c, st2, Encode(Instr.LocalTee(v.ty, v.offset))) == CompileLocalTee(c, st, x);
    PopPushEmitOk(c, st, st1, st2, CompileLocalTee(c, st, x).value);
  }

  lemma BrOk(c: Context, st: State, l: nat)
    requires StackOk(st) && CompileBr(c, st, l).Ok?
    ensures StackOk(CompileBr(c, st, l).value) && StackStep(st, CompileBr(c, st, l).value)
  {
    hide StackOk, StackStep, Emit, WriteLabelTarget, PopResult, MarkUnreachable;
    var st1 := Emit(c, st, [Imm8(BR, 0)]).value;
    EmitOk(c, st, [Imm8(BR, 0)]);
    var (st2, r) := WriteLabelTarget(c, st1, l).value;
    LabelOk(c, st1, l);
    StackStepTrans(st, st1, st2);
    FinishBranch(st2, r);
    StackStepTrans(st, st2, CompileBr(c, st, l).value);
  }

  /** The end of `br` and `br_table`. */
  lemma FinishBranch(st: State, r: ResultType)
    requires StackOk(st) && PopResult(st, r).Ok?
    ensures StackOk(MarkUnreachable(PopResult(st, r).value)) && StackStep(st, MarkUnreachable(PopResult(st, r).value))
  {
    hide StackOk, StackStep, PopResult, MarkUnreachable;
    InFrame(st);
    PopResultPops(st, r);
    var st1 := PopResult(st, r).value;
    PoppedOk(st, st1);
    MarkOk(st1);
    StackStepTrans(st, st1, MarkUnreachable(st1));
  }

  lemma BrIfOk(c: Context, st: State, l: nat)
    requires StackOk(st) && CompileBrIf(c, st, l).Ok?
    ensures StackOk(CompileBrIf(c, st, l).value) && StackStep(st, CompileBrIf(c, st, l).value)
  {
    hide StackOk, StackStep, Emit, WriteLabelTarget, PopResult, PushResult;
    InFrame(st);
    PopExpectPops(st, Known(ValType.I32));
    var st1 := PopType(st, ValType.I32).value;
    PoppedOk(st, st1);
    var st2 := Emit(c, st1, [Imm8(BR_IF, 0)]).value;
    EmitOk(c, st1, [Imm8(BR_IF, 0)]);
    StackStepTrans(st, st1, st2);
    var (st3, r) := WriteLabelTarget(c, st2, l).value;
    LabelOk(c, st2, l);
    StackStepTrans(st, st2, st3);
    InFrame(st3);
    PopResultPops(st3, r);
    var st4 := PopResult(st3, r).value;
    PoppedOk(st3, st4);
    StackStepTrans(st, st3, st4);
    PushResultOk(c, st4, r);
    StackStepTrans(st, st4, CompileBrIf(c, st, l).value);
  }

  lemma BrTableOk(c: Context, st: State, ls: seq<nat>, default: nat)
    requires StackOk(st) && CompileBrTable(c, st, ls, default).Ok?
    ensures StackOk(CompileBrTable(c, st, ls, default).value) && StackStep(st, CompileBrTable(c, st, ls, default).value)
  {
    hide StackOk, StackStep, Emit, WriteLabelTarget, PopResult, MarkUnreachable, TableBranches, Imm8Or16;
    InFrame(st);
    PopExpectPops(st, Known(ValType.I32));
    var st1 := PopType(st, ValType.I32).value;
    PoppedOk(st, st1);
    var st2 := Emit(c, st1, Imm8Or16(BR_TABLE, |ls|)).value;
    EmitOk(c, st1, Imm8Or16(BR_TABLE, |ls|));
    StackStepTrans(st, st1, st2);
    var st3 := TableBranches(c, st2, ls).value;
    TableOk(c, st2, ls);
    StackStepTrans(st, st2, st3);
    var (st4, r) := WriteLabelTarget(c, st3, default).value;
    LabelOk(c, st3, default);
    StackStepTrans(st, st3, st4);
    var st5 := CheckAndClearTable(st4, r).value;
    CodeOnlyOk(st4, st5);
    StackStepTrans(st, st4, st5);
    FinishBranch(st5, r);
    StackStepTrans(st, st5, CompileBrTable(c, st, ls, default).value);
  }

  lemma ReturnOk(c: Context, st: State)
    requires StackOk(st) && CompileReturn(c, st).Ok?
    ensures StackOk(CompileReturn(c, st).value) && StackStep(st, CompileReturn(c, st).value)
  {
    hide StackOk, StackStep, Emit, PopResult, MarkUnreachable;
    InFrame(st);
    PopResultPops(st, c.sig.result);
    var st1 := PopResult(st, c.sig.result).value;
    PoppedOk(st, st1);
    var ws := [Imm8(RETURN, ResultWords(c.sig.result))];
    var st2 := Emit(c, st1, ws).value;
    EmitOk(c, st1, ws);
    StackStepTrans(st, st1, st2);
    MarkOk(st2);
    StackStepTrans(st, st2, MarkUnreachable(st2));
  }

  lemma UnreachableOk(c: Context, st: State)
    requires StackOk(st) && CompileOp(c, st, Op.Unreachable).Ok?
    ensures StackOk(CompileOp(c, st, Op.Unreachable).value) && StackStep(st, CompileOp(c, st, Op.Unreachable).value)
  {
    hide StackOk, StackStep, Emit, MarkUnreachable;
    var ws := [Imm8(UNREACHABLE, 0)];
    var st1 := Emit(c, st, ws).value;
    EmitOk(c, st, ws);
    MarkOk(st1);
    StackStepTrans(st, st1, MarkUnreachable(st1));
  }

  lemma OpOk(c: Context, st: State, op: Op)
    requires StackOk(st) && CompileOp(c, st, op).Ok?
    ensures StackOk(CompileOp(c, st, op).value) && StackStep(st, CompileOp(c, st, op).value)
  {
    hide StackOk, StackStep, CompileNumeric, CompileSelect, CompileDrop, CompileConstant, CompileCall, CompileReturn;
    hide CompileLocalGet, CompileLocalSet, CompileLocalTee, CompileBr, CompileBrIf, CompileBrTable, Emit;
    match op
    case Nop => CodeOnlySame(st);
    case Unreachable => UnreachableOk(c, st);
    case Const(v) => ConstantOk(c, st, v);
    case Num(o) => NumericOk(c, st, o);
    case Drop => DropOk(c, st);
    case Select => SelectOk(c, st);
    case LocalGet(x) => LocalGetOk(c, st, x);
    case LocalSet(x) => LocalSetOk(c, st, x);
    case LocalTee(x) => LocalTeeOk(c, st, x);
    case Br(l) => BrOk(c, st, l);
    case BrIf(l) => BrIfOk(c, st, l);
    case BrTable(ls, d) => BrTableOk(c, st, ls, d);
    case Return => ReturnOk(c, st);
    case Call(x) => CallOk(c, st, x);
  }

  lemma CodeOnlySame(st: State)
    requires StackOk(st)
    ensures StackStep(st, st)
  {
    CodeOnlyOk(st, st);
  }

  // ----- blocks -----

  function OperandsOf(r: ResultType): seq<Operand> { if r.None? then [] else [Known(r.value)] }

  /** `st1` is `st` inside a fresh frame whose results are `rt`. */
  predicate Entered(st: State, st1: State, rt: ResultType) {
    && st.frames != [] && |st1.frames| == |st.frames| + 1
    && (forall i :: 0 <= i < |st.frames| ==> st1.frames[i] == st.frames[i])
    && (var f := Innermost(st1);
        f.height == |st1.values| && f.out == rt && !f.unreachable && (!f.kind.Loop? ==> f.branch == rt))
    && st1.values <= st.values && Innermost(st).height <= |st1.values|
    && st1.highwater == st.highwater
  }

  lemma EnterOk(c: Context, st: State, rt: ResultType)
    requires StackOk(st)
    ensures EnterBlock(c, st, rt).Ok? ==>
            var st1 := EnterBlock(c, st, rt).value; Entered(st, st1, rt) && st1.values == st.values
    ensures EnterLoop(c, st, rt).Ok? ==>
            var st1 := EnterLoop(c, st, rt).value; Entered(st, st1, rt) && st1.values == st.values
  {
  }

  lemma EnterIfOk(c: Context, st: State, rt: ResultType)
    requires StackOk(st) && EnterIf(c, st, rt).Ok?
    ensures Entered(st, EnterIf(c, st, rt).value, rt)
    ensures EnterIf(c, st, rt).value.values == PopType(st, ValType.I32).value.values
  {
    hide Height, Words32, Pack;
    PopExpectPops(st, Known(ValType.I32));
  }

  lemma EnteredOk(st: State, st1: State, rt: ResultType)
    requires StackOk(st) && Entered(st, st1, rt)
    ensures StackOk(st1)
  {
    HeightTruncate(st.values, |st1.values|);
    assert Truncate(st.values, |st1.values|) == st1.values;
    var n := |st.frames|;
    forall i, j | 0 <= i <= j < |st1.frames| ensures st1.frames[i].height <= st1.frames[j].height {
      if i < n { assert st.frames[i].height <= Innermost(st).height; }
    }
  }

  /** Leaving a frame checks that exactly its results lie above its start, dead code or not. */
  lemma DropFrameValues(st: State)
    requires StackOk(st) && DropFrame(st).Ok?
    ensures var st' := DropFrame(st).value;
            && st'.values == st.values[..Innermost(st).height]
            && st'.frames == st.frames[..|st.frames| - 1] && st'.highwater == st.highwater && st'.code == st.code
            && st'.table == st.table
  {
    PopResultPops(st, Innermost(st).out);
  }

  /** After `end` the operands are those from before the block and its results. */
  lemma ExitValues(c: Context, st: State, st1: State, st2: State, rt: ResultType)
    requires StackOk(st) && Entered(st, st1, rt) && StackOk(st2) && StackStep(st1, st2) && ExitBlock(c, st2).Ok?
    ensures var st3 := ExitBlock(c, st2).value;
            && st3.values == st1.values + OperandsOf(rt)
            && |st3.frames| == |st.frames|
            && (forall i :: 0 <= i < |st.frames| ==> st3.frames[i] == st2.frames[i])
            && st2.highwater <= st3.highwater
            && Height(st3.values) <= st3.highwater
  {
    hide Height, Backpatch;
    DropFrameValues(st2);
    assert st2.values[..|st1.values|] == st1.values;
    var (st', out) := PopControl(c, st2).value;
    assert st'.values == st1.values && out == rt;
    ExitHeight(c, st2, st1.values);
  }

  lemma ExitHeight(c: Context, st2: State, base: seq<Operand>)
    requires ExitBlock(c, st2).Ok? && PopControl(c, st2).value.0.values == base
    requires StackOk(st2) && base <= st2.values && PopControl(c, st2).value.0.highwater == st2.highwater
    ensures Height(ExitBlock(c, st2).value.values) <= ExitBlock(c, st2).value.highwater
  {
    HeightTruncate(st2.values, |base|);
    assert Truncate(st2.values, |base|) == base;
  }

  lemma ExitOk(c: Context, st: State, st1: State, st2: State, rt: ResultType)
    requires StackOk(st) && Entered(st, st1, rt) && StackOk(st2) && StackStep(st1, st2) && ExitBlock(c, st2).Ok?
    ensures StackOk(ExitBlock(c, st2).value) && StackStep(st, ExitBlock(c, st2).value)
  {
    hide Height, ExitBlock;
    ExitValues(c, st, st1, st2, rt);
    var st3 := ExitBlock(c, st2).value;
    var h := Innermost(st).height;
    assert st1.values[..h] == st.values[..h];
    assert st3.values[..h] == st1.values[..h];
    forall i, j | 0 <= i <= j < |st3.frames| ensures st3.frames[i].height <= st3.frames[j].height {
      assert st2.frames[i].height <= st2.frames[j].height;
    }
  }

  // ----- else -----

  /** After `else` the operands are those from before the if, in a fresh live frame. */
  lemma ElseValues(c: Context, st: State, st1: State, st2: State, rt: ResultType)
    requires StackOk(st) && Entered(st, st1, rt) && StackOk(st2) && StackStep(st1, st2) && Else(c, st2).Ok?
    ensures var st3 := Else(c, st2).value;
            && st3.values == st1.values && |st3.frames| == |st1.frames|
            && SameUnder(st2, st3)
            && Innermost(st3) == Frame(BlockKind.Block, rt, rt, |st1.values|, Innermost(st3).target, false)
            && st3.highwater == st2.highwater
  {
    hide Height, SplitTail, WriteLabelTarget, Emit, DropFrame;
    var s1 := Emit(c, st2, [Imm8(BR, 0)]).value;
    EmitOk(c, st2, [Imm8(BR, 0)]);
    EmitSame(c, st2, [Imm8(BR, 0)]);
    LabelOk(c, s1, 0);
    var (s2, r) := WriteLabelTarget(c, s1, 0).value;
    InnermostOut(st1, s2, st2, s1);
    DropFrameValues(s2);
    LabelZero(c, s1);
    assert st2.values[..|st1.values|] == st1.values;
  }

  /** The frames under the innermost one are the same. */
  predicate SameUnder(st: State, st': State) {
    |st.frames| == |st'.frames| && forall i :: 0 <= i < |st.frames| - 1 ==> st'.frames[i] == st.frames[i]
  }

  lemma EmitSame(c: Context, st: State, ws: seq<Word>)
    requires Emit(c, st, ws).Ok?
    ensures Emit(c, st, ws).value == st.(code := st.code + ws)
  {
  }

  lemma InnermostOut(st1: State, s2: State, st2: State, s1: State)
    requires StackStep(st1, st2) && SameShape(s1, s2) && s1.frames == st2.frames
    ensures Innermost(s2).out == Innermost(st1).out && Innermost(s2).height == Innermost(st1).height
  {
  }

  /** A branch to the innermost frame changes that frame only. */
  lemma LabelZero(c: Context, st: State)
    requires st.frames != [] && WriteLabelTarget(c, st, 0).Ok?
    ensures SameUnder(st, WriteLabelTarget(c, st, 0).value.0)
  {
    hide Pack, Above, JumpOffset, Words32;
  }

  /** The state before the if, with the chains the then part has extended. */
  function AfterThen(st: State, st2: State): State
    requires |st.frames| <= |st2.frames|
  {
    st.(frames := st2.frames[..|st.frames|], highwater := st2.highwater)
  }

  lemma AfterThenOk(st: State, st1: State, st2: State, rt: ResultType)
    requires StackOk(st) && Entered(st, st1, rt) && StackOk(st2) && StackStep(st1, st2)
    ensures |st.frames| <= |st2.frames| && StackOk(AfterThen(st, st2)) && StackStep(st, AfterThen(st, st2))
  {
    hide Height;
    var base := AfterThen(st, st2);
    forall i, j | 0 <= i <= j < |base.frames| ensures base.frames[i].height <= base.frames[j].height {
      assert st2.frames[i].height <= st2.frames[j].height;
    }
  }

  lemma ElseOk(c: Context, st: State, st1: State, st2: State, rt: ResultType)
    requires StackOk(st) && Entered(st, st1, rt) && StackOk(st2) && StackStep(st1, st2) && Else(c, st2).Ok?
    ensures |st.frames| <= |st2.frames| && StackOk(Else(c, st2).value)
    ensures Entered(AfterThen(st, st2), Else(c, st2).value, rt)
  {
    hide Height, Else;
    ElseValues(c, st, st1, st2, rt);
    var st3 := Else(c, st2).value;
    HeightPrefix(st2, |st1.values|);
    assert st2.values[..|st1.values|] == st1.values;
    forall i, j | 0 <= i <= j < |st3.frames| ensures st3.frames[i].height <= st3.frames[j].height {
      assert st2.frames[i].height <= st2.frames[j].height;
    }
  }

  lemma HeightPrefix(st: State, n: nat)
    requires StackOk(st) && n <= |st.values|
    ensures Height(st.values[..n]) <= st.highwater
  {
    HeightTruncate(st.values, n);
    assert Truncate(st.values, n) == st.values[..n];
  }

  // ----- sequences -----

  /** Compiling a sequence keeps the operands under its frame and leaves outer frames as live as
      they were. */
  lemma {:induction false} CompileOk(c: Context, st: State, code: Code)
    requires StackOk(st) && Compile(c, st, code).Ok?
    ensures StackOk(Compile(c, st, code).value) && StackStep(st, Compile(c, st, code).value)
    decreases code
  {
    hide StackOk, StackStep, Entered, EnterBlock, EnterLoop, EnterIf, ExitBlock, Else, CompileOp;
    match code
    case Done => CodeOnlySame(st);
    case Plain(op, next) =>
      var st1 := CompileOp(c, st, op).value;
      OpOk(c, st, op);
      CompileOk(c, st1, next);
      StackStepTrans(st, st1, Compile(c, st1, next).value);
    case Block(rt, body, next) =>
      var st1 := EnterBlock(c, st, rt).value;
      EnterOk(c, st, rt);
      EnteredOk(st, st1, rt);
      CompileOk(c, st1, body);
      var st2 := Compile(c, st1, body).value;
      ExitOk(c, st, st1, st2, rt);
      CompileOk(c, ExitBlock(c, st2).value, next);
      StackStepTrans(st, ExitBlock(c, st2).value, Compile(c, st, code).value);
    case Loop(rt, body, next) =>
      var st1 := EnterLoop(c, st, rt).value;
      EnterOk(c, st, rt);
      EnteredOk(st, st1, rt);
      CompileOk(c, st1, body);
      var st2 := Compile(c, st1, body).value;
      ExitOk(c, st, st1, st2, rt);
      CompileOk(c, ExitBlock(c, st2).value, next);
      StackStepTrans(st, ExitBlock(c, st2).value, Compile(c, st, code).value);
    case If(rt, thn, next) =>
      var st1 := EnterIf(c, st, rt).value;
      EnterIfOk(c, st, rt);
      EnteredOk(st, st1, rt);
      CompileOk(c, st1, thn);
      var st2 := Compile(c, st1, thn).value;
      ExitOk(c, st, st1, st2, rt);
      CompileOk(c, ExitBlock(c, st2).value, next);
      StackStepTrans(st, ExitBlock(c, st2).value, Compile(c, st, code).value);
    case IfElse(rt, thn, els, next) =>
      var st1 := EnterIf(c, st, rt).value;
      EnterIfOk(c, st, rt);
      EnteredOk(st, st1, rt);
      CompileOk(c, st1, thn);
      var st2 := Compile(c, st1, thn).value;
      ElseOk(c, st, st1, st2, rt);
      var st3 := Else(c, st2).value;
      CompileOk(c, st3, els);
      var st4 := Compile(c, st3, els).value;
      AfterThenOk(st, st1, st2, rt);
      var base := AfterThen(st, st2);
      ExitOk(c, base, st3, st4, rt);
      var st5 := ExitBlock(c, st4).value;
      StackStepTrans(st, base, st5);
      CompileOk(c, st5, next);
      StackStepTrans(st, st5, Compile(c, st, code).value);
  }

  // ----- live code -----

  /** No open frame is dead, so every operand has a type. */
  predicate Live(st: State) {
    && (forall i :: 0 <= i < |st.frames| ==> !st.frames[i].unreachable)
    && forall k :: 0 <= k < |st.values| ==> st.values[k].Known?
  }

  function Knowns(ts: seq<ValType>): (os: seq<Operand>)
    ensures |os| == |ts|
    ensures forall i :: 0 <= i < |ts| ==> os[i] == Known(ts[i])
  {
    seq(|ts|, i requires 0 <= i < |ts| => Known(ts[i]))
  }

  lemma {:induction false} HeightKnowns(ts: seq<ValType>)
    ensures Height(Knowns(ts)) == WordLen(ts)
    decreases |ts|
  {
    if ts != [] {
      HeightKnowns(ts[1..]);
      assert Knowns(ts)[1..] == Knowns(ts[1..]);
      assert ts == [ts[0]] + ts[1..];
      WordLenConcat([ts[0]], ts[1..]);
      assert [ts[0]][..0] == [];
    }
  }

  lemma PopAnyLive(st: State)
    requires StackOk(st) && Live(st) && PopAny(st).Ok?
    ensures |st.values| > Innermost(st).height
    ensures PopAny(st).value == (st.(values := st.values[..|st.values| - 1]), st.values[|st.values| - 1])
    ensures Live(PopAny(st).value.0)
  {
  }

  lemma PopTypeLive(st: State, t: ValType)
    requires StackOk(st) && Live(st) && PopType(st, t).Ok?
    ensures |st.values| > Innermost(st).height && st.values[|st.values| - 1] == Known(t)
    ensures PopType(st, t).value == st.(values := st.values[..|st.values| - 1]) && Live(PopType(st, t).value)
    ensures StackOk(PopType(st, t).value)
  {
    PopExpectPops(st, Known(t));
    PoppedOk(st, PopType(st, t).value);
  }

  lemma LastOperand(values: seq<Operand>, front: seq<ValType>, t: ValType)
    requires values != [] && values[|values| - 1] == Known(t) && |front| <= |values| - 1
    requires values[..|values| - 1][|values| - 1 - |front|..] == Knowns(front)
    ensures values[|values| - |front| - 1..] == Knowns(front + [t])
    ensures values[..|values| - 1][..|values| - 1 - |front|] == values[..|values| - |front| - 1]
    ensures front + [t] == (front + [t])[..|front|] + [t]
  {
    var n := |values|;
    assert values[n - |front| - 1..] == values[..n - 1][n - 1 - |front|..] + [values[n - 1]];
    assert Knowns(front + [t]) == Knowns(front) + [Known(t)];
  }

  lemma {:induction false} PopTypesLive(st: State, ts: seq<ValType>)
    requires StackOk(st) && Live(st) && PopTypes(st, ts).Ok?
    ensures |ts| <= |st.values| && Innermost(st).height <= |st.values| - |ts|
    ensures st.values[|st.values| - |ts|..] == Knowns(ts)
    ensures PopTypes(st, ts).value == st.(values := st.values[..|st.values| - |ts|])
    ensures Live(PopTypes(st, ts).value) && StackOk(PopTypes(st, ts).value)
    decreases |ts|
  {
    if ts == [] {
      assert st.values[|st.values|..] == [] && Knowns(ts) == [] && st.values[..|st.values|] == st.values;
    } else {
      hide StackOk, Live, PopType;
      var (front, t) := (ts[..|ts| - 1], ts[|ts| - 1]);
      PopTypeLive(st, t);
      var st1 := PopType(st, t).value;
      PopTypesLive(st1, front);
      LastOperand(st.values, front, t);
    }
  }

  lemma PopResultLive(st: State, r: ResultType)
    requires StackOk(st) && Live(st) && PopResult(st, r).Ok?
    ensures ResultCount(r) <= |st.values| && Innermost(st).height <= |st.values| - ResultCount(r)
    ensures st.values[|st.values| - ResultCount(r)..] == OperandsOf(r)
    ensures PopResult(st, r).value == st.(values := st.values[..|st.values| - ResultCount(r)])
    ensures Live(PopResult(st, r).value) && StackOk(PopResult(st, r).value)
  {
    if r.Some? { PopTypeLive(st, r.value); }
  }
}
