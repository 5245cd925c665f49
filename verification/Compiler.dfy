/** The compiler's visitor (src/compiler.rs) on the mutable builder, and the loops that drive it
    (src/code.rs, `read_code` and `read_function_code`). */
module Compiler {
  import opened Values
  import opened Label
  import opened Ir
  import opened Wasm
  import Text
  import opened Chains
  import opened Frames
  import opened Extension
  import opened Typing
  import Locals
  import Bodies
  import opened CodeStore
  import opened Builder

  type Error = Text.Error

  // ----- control -----

  method EnterBlock(rt: ResultType, tb: TextBuilder, ghost lo: nat) returns (r: Result<(), Error>)
    requires tb.Valid(lo)
    modifies tb
    ensures tb.Ready() && Same(r, Text.EnterBlock(tb.c, old(tb.View()), rt), tb.View())
    ensures r.Ok? ==> tb.Valid(lo) && |tb.frames| == |old(tb.frames)| + 1
  {
    ghost var st := tb.View();
    EnterOpens(tb.c, st, rt, lo);
    EnterOk(tb.c, st, rt);
    r := tb.PushFrame(Text.BlockKind.Block, rt, rt, SENTINEL);
    if r.Ok? {
      OpenedOk(st, tb.View(), lo);
      EnteredOk(st, tb.View(), rt);
    }
  }

  method EnterLoop(rt: ResultType, tb: TextBuilder, ghost lo: nat) returns (r: Result<(), Error>)
    requires tb.Valid(lo)
    modifies tb
    ensures tb.Ready() && Same(r, Text.EnterLoop(tb.c, old(tb.View()), rt), tb.View())
    ensures r.Ok? ==> tb.Valid(lo) && |tb.frames| == |old(tb.frames)| + 1
  {
    ghost var st := tb.View();
    EnterOpens(tb.c, st, rt, lo);
    EnterOk(tb.c, st, rt);
    var pc := tb.code.Pc();
    r := tb.PushFrame(Text.BlockKind.Loop, None, rt, pc);
    if r.Ok? {
      OpenedOk(st, tb.View(), lo);
      EnteredOk(st, tb.View(), rt);
    }
  }

  /** `if_`, with `write_if_else_target`. */
  method EnterIf(rt: ResultType, tb: TextBuilder, ghost lo: nat) returns (r: Result<(), Error>)
    requires tb.Valid(lo)
    modifies tb, tb.code, tb.code.Repr
    ensures tb.Ready() && fresh(tb.code.Repr - old(tb.code.Repr))
    ensures Same(r, Text.EnterIf(tb.c, old(tb.View()), rt), tb.View())
    ensures r.Ok? ==> tb.Valid(lo) && |tb.frames| == |old(tb.frames)| + 1
  {
    hide ChainsOk, StackOk, Opened, Entered, Words32, Pack, Text.PopType;
    ghost var st := tb.View();
    var _ :- tb.PopStackType(ValType.I32);
    var _ :- tb.InstrImm8(IF, 0);
    var pc := tb.code.Pc();
    var _ :- tb.PushFrame(Text.BlockKind.If, rt, rt, pc);
    r := tb.Write32(Pack(ResultWords(rt), 0, 0));
    if r.Ok? {
      EnterIfOpens(tb.c, st, rt, lo);
      EnterIfOk(tb.c, st, rt);
      OpenedOk(st, tb.View(), lo);
      EnteredOk(st, tb.View(), rt);
    }
  }

  method ExitBlock(tb: TextBuilder, ghost lo: nat) returns (r: Result<(), Error>)
    requires tb.Valid(lo) && |tb.frames| >= 2
    modifies tb, tb.code, tb.code.Repr
    ensures tb.Ready() && fresh(tb.code.Repr - old(tb.code.Repr))
    ensures Same(r, Text.ExitBlock(tb.c, old(tb.View())), tb.View())
    ensures r.Ok? ==> tb.Valid(lo) && |tb.frames| == |old(tb.frames)| - 1
  {
    hide Text.PopControl, Text.PushResult, ChainsOk, StackOk, Closed;
    ghost var st := tb.View();
    var t :- tb.PopFrame(lo);
    r := tb.PushResultType(t);
    if r.Ok? {
      ExitCloses(tb.c, st, lo);
      ExitStack(tb.c, st);
      ClosedOk(st, tb.View(), lo);
    }
  }

  lemma ClosedOk(st: Text.State, st': Text.State, lo: nat)
    requires ChainsOk(st, lo) && Closed(st, st')
    ensures ChainsOk(st', lo) && |st'.frames| == |st.frames| - 1
  {
    CloseSlots(st, st', lo);
  }

  /** Leaving a frame leaves a sound stack. */
  lemma ExitStack(c: Text.Context, st: Text.State)
    requires StackOk(st) && |st.frames| >= 2 && Text.ExitBlock(c, st).Ok?
    ensures StackOk(Text.ExitBlock(c, st).value)
  {
    hide Text.Height, Text.Backpatch;
    DropFrameValues(st);
    var st1 := Text.DropFrame(st).value;
    HeightPrefix(st, Text.Innermost(st).height);
    UnderOk(st, st1);
    var (st2, t) := Text.PopControl(c, st).value;
    assert st2 == st1.(code := st2.code);
    assert StackOk(st2);
    PushResultOk(c, st2, t);
  }

  lemma UnderOk(st: Text.State, st1: Text.State)
    requires StackOk(st) && |st.frames| >= 2
    requires st1 == st.(values := st.values[..Text.Innermost(st).height], frames := st.frames[..|st.frames| - 1])
    ensures StackOk(st1)
  {
    var n := |st.frames| - 1;
    HeightPrefix(st, Text.Innermost(st).height);
    hide Text.Height;
    assert st.frames[n - 1].height <= st.frames[n].height;
    forall i, j | 0 <= i <= j < n ensures st1.frames[i].height <= st1.frames[j].height {
      assert st.frames[i].height <= st.frames[j].height;
    }
  }

  lemma ElseStack(c: Text.Context, st: Text.State, lo: nat)
    requires StackOk(st) && ChainsOk(st, lo) && Text.Else(c, st).Ok?
    ensures StackOk(Text.Else(c, st).value)
  {
    hide Text.Height, Text.WriteLabelTarget, Text.SplitTail, ChainsOk, Text.DropFrame, StackOk, StackStep;
    ElseIsIf(c, st, lo);
    EmitOk(c, st, [Imm8(BR, 0)]);
    var st1 := Text.Emit(c, st, [Imm8(BR, 0)]).value;
    LabelOk(c, st1, 0);
    var st2 := Text.WriteLabelTarget(c, st1, 0).value.0;
    DropFrameValues(st2);
    var st3 := Text.DropFrame(st2).value;
    UnderOk(st2, st3);
    var st' := Text.Else(c, st).value;
    ElseFrameOk(st3, Text.Innermost(st2).out, st'.code, Text.Innermost(st').target, st');
  }

  lemma ElseFrameOk(st3: Text.State, t: ResultType, code: seq<Word>, target: int, st': Text.State)
    requires StackOk(st3)
    requires st' == st3.(code := code,
                         frames := st3.frames + [Text.Frame(Text.BlockKind.Block, t, t, |st3.values|, target, false)])
    ensures StackOk(st')
  {
    hide Text.Height;
    var n := |st3.frames|;
    forall i, j | 0 <= i <= j <= n ensures st'.frames[i].height <= st'.frames[j].height {
      if i < n { assert st3.frames[i].height <= st3.frames[n - 1].height; }
    }
  }

  /** `else_`. */
  method Else(tb: TextBuilder, ghost lo: nat) returns (r: Result<(), Error>)
    requires tb.Valid(lo)
    modifies tb, tb.code, tb.code.Repr
    ensures tb.Ready() && fresh(tb.code.Repr - old(tb.code.Repr))
    ensures Same(r, Text.Else(tb.c, old(tb.View())), tb.View())
    ensures r.Ok? ==> tb.Valid(lo) && |tb.frames| == |old(tb.frames)|
  {
    hide Text.WriteLabelTarget, Text.DropFrame, Text.SplitTail, ChainsOk, StackOk, StackStep;
    ghost var st := tb.View();
    EmitOk'(tb.c, st, [Imm8(BR, 0)]);
    var _ :- tb.InstrImm8(BR, 0);
    ghost var st1 := tb.View();
    var _ :- tb.WriteLabel(0);
    ElseReady(tb.c, st, st1, tb.View(), lo);
    var v :- tb.PopFrameAndPatchIf(lo);
    r := tb.PushFrame(Text.BlockKind.Block, v.0, v.0, v.1);
    if r.Ok? {
      ElseExtendsCode(tb.c, st, lo);
      ElseStack(tb.c, st, lo);
    }
  }

  lemma EmitOk'(c: Text.Context, st: Text.State, ws: seq<Word>)
    requires StackOk(st)
    ensures Text.Emit(c, st, ws).Ok? ==> StackOk(Text.Emit(c, st, ws).value)
  {
    if Text.Emit(c, st, ws).Ok? { EmitOk(c, st, ws); }
  }

  lemma ElseReady(c: Text.Context, st: Text.State, st1: Text.State, st2: Text.State, lo: nat)
    requires OptionsOk'(c) && ChainsOk(st, lo)
    requires Text.Emit(c, st, [Imm8(BR, 0)]) == Result.Ok(st1)
    requires Text.WriteLabelTarget(c, st1, 0).Ok? && Text.WriteLabelTarget(c, st1, 0).value.0 == st2
    ensures ChainsOk(st2, lo)
  {
    hide Text.WriteLabelTarget, ChainsOk, Extends;
    ElseBranchExtends(c, st, lo);
    ExtendsElim(st, st2, lo);
  }

  predicate OptionsOk'(c: Text.Context) { Text.OptionsOk(c.options) }

  /** `finish`. */
  method Finish(tb: TextBuilder, ghost lo: nat) returns (r: Result<(), Error>)
    requires tb.Valid(lo)
    modifies tb, tb.code, tb.code.Repr
    ensures tb.Ready() && fresh(tb.code.Repr - old(tb.code.Repr))
    ensures Same(r, Text.Finish(tb.c, old(tb.View())), tb.View())
  {
    hide Text.PopControl, ChainsOk, StackOk;
    var t :- tb.PopFrame(lo);
    if t.Some? {
      r := tb.InstrImm8(RETURN, Width(t.value));
    } else {
      r := tb.InstrImm8(RETURN, 0);
    }
  }

  // ----- branches -----

  method Br(l: nat, tb: TextBuilder, ghost lo: nat) returns (r: Result<(), Error>)
    requires tb.Valid(lo)
    modifies tb, tb.code, tb.code.Repr
    ensures tb.Ready() && fresh(tb.code.Repr - old(tb.code.Repr))
    ensures Same(r, Text.CompileBr(tb.c, old(tb.View()), l), tb.View())
    ensures r.Ok? ==> tb.Valid(lo) && |tb.frames| == |old(tb.frames)|
  {
    hide Text.WriteLabelTarget, Text.PopResult, Text.MarkUnreachable, ChainsOk, StackOk;
    PlainAlways(tb.c, tb.View(), Op.Br(l), lo);
    EmitOk'(tb.c, tb.View(), [Imm8(BR, 0)]);
    var _ :- tb.InstrImm8(BR, 0);
    var t :- tb.WriteLabel(l);
    var _ :- tb.PopResultType(t);
    tb.MarkDead();
    r := Ok(());
  }

  lemma PopTypeOk(st: Text.State, t: ValType)
    requires StackOk(st)
    ensures Text.PopType(st, t).Ok? ==> StackOk(Text.PopType(st, t).value)
  {
    if Text.PopType(st, t).Ok? {
      PopExpectPops(st, Text.Known(t));
      PoppedOk(st, Text.PopType(st, t).value);
    }
  }

  method BrIf(l: nat, tb: TextBuilder, ghost lo: nat) returns (r: Result<(), Error>)
    requires tb.Valid(lo)
    modifies tb, tb.code, tb.code.Repr
    ensures tb.Ready() && fresh(tb.code.Repr - old(tb.code.Repr))
    ensures Same(r, Text.CompileBrIf(tb.c, old(tb.View()), l), tb.View())
    ensures r.Ok? ==> tb.Valid(lo) && |tb.frames| == |old(tb.frames)|
  {
    hide Text.WriteLabelTarget, Text.PopResult, Text.PushResult, Text.PopType, ChainsOk, StackOk;
    PlainAlways(tb.c, tb.View(), Op.BrIf(l), lo);
    PopTypeOk(tb.View(), ValType.I32);
    var _ :- tb.PopStackType(ValType.I32);
    EmitOk'(tb.c, tb.View(), [Imm8(BR_IF, 0)]);
    var _ :- tb.InstrImm8(BR_IF, 0);
    var t :- tb.WriteLabel(l);
    var _ :- tb.PopResultType(t);
    r := tb.PushResultType(t);
  }

  lemma LabelOk'(c: Text.Context, st: Text.State, l: nat)
    requires StackOk(st)
    ensures Text.WriteLabelTarget(c, st, l).Ok? ==> StackOk(Text.WriteLabelTarget(c, st, l).value.0)
  {
    hide Text.WriteLabelTarget, StackOk;
    if Text.WriteLabelTarget(c, st, l).Ok? { LabelOk(c, st, l); }
  }

  lemma CheckOk(st: Text.State, t: ResultType)
    requires StackOk(st)
    ensures Text.CheckTable(st, t).Ok? ==> StackOk(Text.CheckTable(st, t).value)
  {
  }

  /** `br_table_start`, `br_table_branch` for each case in turn, and `br_table_finish`. */
  method BrTable(ls: seq<nat>, default: nat, tb: TextBuilder, ghost lo: nat) returns (r: Result<(), Error>)
    requires tb.Valid(lo)
    modifies tb, tb.code, tb.code.Repr
    ensures tb.Ready() && fresh(tb.code.Repr - old(tb.code.Repr))
    ensures Same(r, Text.CompileBrTable(tb.c, old(tb.View()), ls, default), tb.View())
    ensures r.Ok? ==> tb.Valid(lo) && |tb.frames| == |old(tb.frames)|
  {
    hide Text.WriteLabelTarget, Text.PopResult, Text.MarkUnreachable, Text.PopType, ChainsOk, StackOk;
    hide Text.TableBranches, Text.Emit;
    PlainAlways(tb.c, tb.View(), Op.BrTable(ls, default), lo);
    PopTypeOk(tb.View(), ValType.I32);
    var _ :- tb.PopStackType(ValType.I32);
    ghost var st1 := tb.View();
    if |ls| <= 0xFFFF { EmitOk'(tb.c, st1, Imm8Or16(BR_TABLE, |ls|)); }
    var _ :- tb.InstrImm8Or16(BR_TABLE, |ls|);
    var _ :- BrTableCases(ls, tb);
    var t :- tb.WriteLabel(default);
    var _ :- tb.CheckAndClearBrTableResult(t);
    var _ :- tb.PopResultType(t);
    tb.MarkDead();
    r := Ok(());
  }

  /** The cases, as `read_code` reads them. */
  method BrTableCases(ls: seq<nat>, tb: TextBuilder) returns (r: Result<(), Error>)
    requires tb.Ready() && StackOk(tb.View())
    modifies tb, tb.code, tb.code.Repr
    ensures tb.Ready() && fresh(tb.code.Repr - old(tb.code.Repr))
    ensures Same(r, Text.TableBranches(tb.c, old(tb.View()), ls), tb.View())
    ensures r.Ok? ==> StackOk(tb.View())
  {
    hide Text.WriteLabelTarget, StackOk, Text.CheckTable;
    ghost var st2 := tb.View();
    var k := 0;
    while k < |ls|
      invariant k <= |ls| && tb.Ready() && fresh(tb.code.Repr - old(tb.code.Repr)) && StackOk(tb.View())
      invariant Text.TableBranches(tb.c, st2, ls) == Text.TableBranches(tb.c, tb.View(), ls[k..])
    {
      assert ls[k..][0] == ls[k] && ls[k..][1..] == ls[k + 1..];
      LabelOk'(tb.c, tb.View(), ls[k]);
      var t :- tb.WriteLabel(ls[k]);
      CheckOk(tb.View(), t);
      var _ :- tb.CheckBrTableResult(t);
      k := k + 1;
    }
    r := Ok(());
  }

  method Return(tb: TextBuilder, ghost lo: nat) returns (r: Result<(), Error>)
    requires tb.Valid(lo)
    modifies tb, tb.code, tb.code.Repr
    ensures tb.Ready() && fresh(tb.code.Repr - old(tb.code.Repr))
    ensures Same(r, Text.CompileReturn(tb.c, old(tb.View())), tb.View())
    ensures r.Ok? ==> tb.Valid(lo) && |tb.frames| == |old(tb.frames)|
  {
    hide ChainsOk, StackOk;
    PlainAlways(tb.c, tb.View(), Op.Return, lo);
    var t := tb.c.sig.result;
    var _ :- tb.PopResultType(t);
    var _ :- tb.InstrImm8(RETURN, ResultWords(t));
    tb.MarkDead();
    r := Ok(());
  }

  method Call(x: nat, tb: TextBuilder, ghost lo: nat) returns (r: Result<(), Error>)
    requires tb.Valid(lo)
    modifies tb, tb.code, tb.code.Repr
    ensures tb.Ready() && fresh(tb.code.Repr - old(tb.code.Repr))
    ensures Same(r, Text.CompileCall(tb.c, old(tb.View()), x), tb.View())
    ensures r.Ok? ==> tb.Valid(lo) && |tb.frames| == |old(tb.frames)|
  {
    hide ChainsOk, StackOk, Text.PopTypes, Text.PushResult;
    PlainAlways(tb.c, tb.View(), Op.Call(x), lo);
    if x >= |tb.c.index| { return Err(Text.FunctionIdxOutOfRange); }
    var e := tb.c.index[x];
    var _ :- tb.PopStackTypes(e.sig.params);
    var _ :- tb.PushResultType(e.sig.result);
    var (op: U8, module_: U8) :=
      match e.ref
      case Local(_) => (CALL, 0)
      case Extern(m, _) => (CALL_EXTERN, m)
      case Host(m, _) => (CALL_HOST, m);
    EmitTwice(tb.c, tb.View(), [Imm8(op, module_)], [e.ref.index]);
    assert [Imm8(op, module_)] + [e.ref.index] == Encode(Text.CallInstr(e.ref));
    var _ :- tb.InstrImm8(op, module_);
    r := tb.PushWord(e.ref.index);
  }

  // ----- other instructions -----

  method Drop(tb: TextBuilder, ghost lo: nat) returns (r: Result<(), Error>)
    requires tb.Valid(lo)
    modifies tb, tb.code, tb.code.Repr
    ensures tb.Ready() && fresh(tb.code.Repr - old(tb.code.Repr))
    ensures Same(r, Text.CompileDrop(tb.c, old(tb.View())), tb.View())
    ensures r.Ok? ==> tb.Valid(lo) && |tb.frames| == |old(tb.frames)|
  {
    hide ChainsOk, StackOk;
    PlainAlways(tb.c, tb.View(), Op.Drop, lo);
    var o :- tb.PopStackT();
    r := tb.InstrImm8(DROP, TypeTag(if o.Unknown? then ValType.I32 else o.ty));
  }

  method Select(tb: TextBuilder, ghost lo: nat) returns (r: Result<(), Error>)
    requires tb.Valid(lo)
    modifies tb, tb.code, tb.code.Repr
    ensures tb.Ready() && fresh(tb.code.Repr - old(tb.code.Repr))
    ensures Same(r, Text.CompileSelect(tb.c, old(tb.View())), tb.View())
    ensures r.Ok? ==> tb.Valid(lo) && |tb.frames| == |old(tb.frames)|
  {
    hide ChainsOk, StackOk, Text.PopType, Text.PopExpect, Text.PushOperand;
    PlainAlways(tb.c, tb.View(), Op.Select, lo);
    var _ :- tb.PopStackType(ValType.I32);
    var t1 :- tb.PopStackT();
    var t2 :- tb.PopStack(t1);
    var _ :- tb.PushStack(t2);
    r := tb.InstrImm8(SELECT, TypeTag(if t2.Unknown? then ValType.I32 else t2.ty));
  }

  method Numeric(op: NumOp, tb: TextBuilder, ghost lo: nat) returns (r: Result<(), Error>)
    requires tb.Valid(lo)
    modifies tb, tb.code, tb.code.Repr
    ensures tb.Ready() && fresh(tb.code.Repr - old(tb.code.Repr))
    ensures Same(r, Text.CompileNumeric(tb.c, old(tb.View()), op), tb.View())
    ensures r.Ok? ==> tb.Valid(lo) && |tb.frames| == |old(tb.frames)|
  {
    hide ChainsOk, StackOk, Text.PopTypes, Text.PushOperand;
    PlainAlways(tb.c, tb.View(), Op.Num(op), lo);
    var _ :- tb.PopStackTypes(NumParams(op));
    var _ :- tb.PushStack(Text.Known(NumResult(op)));
    r := tb.InstrImm8(NumOpcode(op), 0);
  }

  method Constant(v: Value, tb: TextBuilder, ghost lo: nat) returns (r: Result<(), Error>)
    requires tb.Valid(lo)
    modifies tb, tb.code, tb.code.Repr
    ensures tb.Ready() && fresh(tb.code.Repr - old(tb.code.Repr))
    ensures Same(r, Text.CompileConstant(tb.c, old(tb.View()), v), tb.View())
    ensures r.Ok? ==> tb.Valid(lo) && |tb.frames| == |old(tb.frames)|
  {
    hide ChainsOk, StackOk, Text.PushOperand, Words32, Words64;
    PlainAlways(tb.c, tb.View(), Op.Const(v), lo);
    var _ :- tb.PushStack(Text.Known(v.Type()));
    match v {
      case I32(w) => r := tb.InstrImm8Or32(I32_CONST, w);
      case I64(d) => r := tb.InstrImm8Or64(I64_CONST, d);
      case F32(w) =>
        EmitTwice(tb.c, tb.View(), [Imm8(F32_CONST, 0)], Words32(w));
        var _ :- tb.InstrImm8(F32_CONST, 0);
        r := tb.Write32(w);
      case F64(d) =>
        EmitTwice(tb.c, tb.View(), [Imm8(F64_CONST, 0)], Words64(d));
        var _ :- tb.InstrImm8(F64_CONST, 0);
        r := tb.Write64(d);
    }
  }

  /** The two words of a local access. */
  method LocalAccess(op: U8, v: Text.LocalVar, tb: TextBuilder) returns (r: Result<(), Error>)
    requires tb.Ready()
    modifies tb.code, tb.code.Repr
    ensures tb.Ready() && fresh(tb.code.Repr - old(tb.code.Repr))
    ensures Same(r, Text.Emit(tb.c, old(tb.View()), [Imm8(op, TypeTag(v.ty)), OffsetWord(v.offset)]), tb.View())
  {
    EmitTwice(tb.c, tb.View(), [Imm8(op, TypeTag(v.ty))], [OffsetWord(v.offset)]);
    var _ :- tb.InstrImm8(op, TypeTag(v.ty));
    r := tb.PushWord(OffsetWord(v.offset));
  }

  method LocalGet(x: nat, tb: TextBuilder, ghost lo: nat) returns (r: Result<(), Error>)
    requires tb.Valid(lo)
    modifies tb, tb.code, tb.code.Repr
    ensures tb.Ready() && fresh(tb.code.Repr - old(tb.code.Repr))
    ensures Same(r, Text.CompileLocalGet(tb.c, old(tb.View()), x), tb.View())
    ensures r.Ok? ==> tb.Valid(lo) && |tb.frames| == |old(tb.frames)|
  {
    hide ChainsOk, StackOk, Text.PushOperand, Text.GetLocal;
    PlainAlways(tb.c, tb.View(), Op.LocalGet(x), lo);
    var v :- tb.FindVariable(x);
    var _ :- tb.PushStack(Text.Known(v.ty));
    r := LocalAccess(LOCAL_GET, v, tb);
  }

  method LocalSet(x: nat, tb: TextBuilder, ghost lo: nat) returns (r: Result<(), Error>)
    requires tb.Valid(lo)
    modifies tb, tb.code, tb.code.Repr
    ensures tb.Ready() && fresh(tb.code.Repr - old(tb.code.Repr))
    ensures Same(r, Text.CompileLocalSet(tb.c, old(tb.View()), x), tb.View())
    ensures r.Ok? ==> tb.Valid(lo) && |tb.frames| == |old(tb.frames)|
  {
    hide ChainsOk, StackOk, Text.PopType, Text.GetLocal;
    PlainAlways(tb.c, tb.View(), Op.LocalSet(x), lo);
    var v :- tb.FindVariable(x);
    var _ :- tb.PopStackType(v.ty);
    r := LocalAccess(LOCAL_SET, v, tb);
  }

  method LocalTee(x: nat, tb: TextBuilder, ghost lo: nat) returns (r: Result<(), Error>)
    requires tb.Valid(lo)
    modifies tb, tb.code, tb.code.Repr
    ensures tb.Ready() && fresh(tb.code.Repr - old(tb.code.Repr))
    ensures Same(r, Text.CompileLocalTee(tb.c, old(tb.View()), x), tb.View())
    ensures r.Ok? ==> tb.Valid(lo) && |tb.frames| == |old(tb.frames)|
  {
    hide ChainsOk, StackOk, Text.PopType, Text.PushOperand, Text.GetLocal;
    PlainAlways(tb.c, tb.View(), Op.LocalTee(x), lo);
    var v :- tb.FindVariable(x);
    var _ :- tb.PopStackType(v.ty);
    var _ :- tb.PushStack(Text.Known(v.ty));
    r := LocalAccess(LOCAL_TEE, v, tb);
  }

  method Unreachable(tb: TextBuilder, ghost lo: nat) returns (r: Result<(), Error>)
    requires tb.Valid(lo)
    modifies tb, tb.code, tb.code.Repr
    ensures tb.Ready() && fresh(tb.code.Repr - old(tb.code.Repr))
    ensures Same(r, Text.CompileOp(tb.c, old(tb.View()), Op.Unreachable), tb.View())
    ensures r.Ok? ==> tb.Valid(lo) && |tb.frames| == |old(tb.frames)|
  {
    hide ChainsOk, StackOk;
    PlainAlways(tb.c, tb.View(), Op.Unreachable, lo);
    var _ :- tb.InstrImm8(UNREACHABLE, 0);
    tb.MarkDead();
    r := Ok(());
  }

  method Plain(op: Op, tb: TextBuilder, ghost lo: nat) returns (r: Result<(), Error>)
    requires tb.Valid(lo)
    modifies tb, tb.code, tb.code.Repr
    ensures tb.Ready() && fresh(tb.code.Repr - old(tb.code.Repr))
    ensures Same(r, Text.CompileOp(tb.c, old(tb.View()), op), tb.View())
    ensures r.Ok? ==> tb.Valid(lo) && |tb.frames| == |old(tb.frames)|
  {
    hide ChainsOk, StackOk, StackStep, Extends, Text.CompileBr, Text.CompileBrIf, Text.CompileBrTable, Text.CompileCall;
    hide Text.CompileSelect, Text.CompileNumeric, Text.CompileConstant, Text.CompileDrop, Text.CompileReturn;
    hide Text.CompileLocalGet, Text.CompileLocalSet, Text.CompileLocalTee, Text.Emit;
    match op {
      case Nop => r := Ok(());
      case Unreachable => r := Unreachable(tb, lo);
      case Const(v) => r := Constant(v, tb, lo);
      case Num(o) => r := Numeric(o, tb, lo);
      case Drop => r := Drop(tb, lo);
      case Select => r := Select(tb, lo);
      case LocalGet(x) => r := LocalGet(x, tb, lo);
      case LocalSet(x) => r := LocalSet(x, tb, lo);
      case LocalTee(x) => r := LocalTee(x, tb, lo);
      case Br(l) => r := Br(l, tb, lo);
      case BrIf(l) => r := BrIf(l, tb, lo);
      case BrTable(ls, d) => r := BrTable(ls, d, tb, lo);
      case Return => r := Return(tb, lo);
      case Call(x) => r := Call(x, tb, lo);
    }
  }

  /** If the instruction is accepted, the invariants hold behind it. */
  lemma PlainAlways(c: Text.Context, st: Text.State, op: Op, lo: nat)
    requires Text.OptionsOk(c.options) && ChainsOk(st, lo) && StackOk(st)
    ensures Text.CompileOp(c, st, op).Ok? ==>
              var st' := Text.CompileOp(c, st, op).value;
              ChainsOk(st', lo) && StackOk(st') && |st'.frames| == |st.frames|
  {
    hide ChainsOk, StackOk, StackStep, Extends, Text.CompileOp;
    if Text.CompileOp(c, st, op).Ok? {
      var st' := Text.CompileOp(c, st, op).value;
      OpExtends(c, st, op, lo);
      ExtendsElim(st, st', lo);
      OpOk(c, st, op);
    }
  }

  // ----- the decoding loop -----

  /** One instruction of `read_code`, other than the closing `end`. */
  method Visit(t: Bodies.Token, depth: nat, tb: TextBuilder, ghost lo: nat) returns (r: Result<(), Error>)
    requires tb.Valid(lo) && |tb.frames| == depth + 1 && (t.End? ==> depth > 0)
    modifies tb, tb.code, tb.code.Repr
    ensures tb.Ready() && fresh(tb.code.Repr - old(tb.code.Repr))
    ensures Same(r, Bodies.Visit(tb.c, old(tb.View()), t), tb.View())
    ensures r.Ok? ==> tb.Valid(lo) && |tb.frames| == Bodies.DepthAfter(t, depth) + 1
  {
    hide ChainsOk, StackOk, Text.CompileOp, Text.EnterBlock, Text.EnterLoop, Text.EnterIf, Text.Else, Text.ExitBlock;
    match t {
      case Op(op) => r := Plain(op, tb, lo);
      case Block(rt) => r := EnterBlock(rt, tb, lo);
      case Loop(rt) => r := EnterLoop(rt, tb, lo);
      case If(rt) => r := EnterIf(rt, tb, lo);
      case Else => r := Else(tb, lo);
      case End => r := ExitBlock(tb, lo);
    }
  }

  /** `read_code`: follow the depth counter to the closing `end`; `n` instructions were read. */
  method ReadCode(tokens: seq<Bodies.Token>, tb: TextBuilder, ghost lo: nat) returns (r: Result<nat, Error>)
    requires tb.Valid(lo) && |tb.frames| == 1
    modifies tb, tb.code, tb.code.Repr
    ensures tb.Ready() && fresh(tb.code.Repr - old(tb.code.Repr))
    ensures match Bodies.ReadCode(tb.c, old(tb.View()), 0, tokens)
            case Ok(v) => r.Ok? && r.value <= |tokens| && tokens[r.value..] == v.1 && tb.View() == v.0
            case Err(e) => r == Err(e)
  {
    hide ChainsOk, StackOk, Bodies.Visit, Text.Finish;
    ghost var st := tb.View();
    var depth: nat, n: nat := 0, 0;
    while n < |tokens|
      invariant n <= |tokens| && tb.Valid(lo) && |tb.frames| == depth + 1 && fresh(tb.code.Repr - old(tb.code.Repr))
      invariant Bodies.ReadCode(tb.c, st, 0, tokens) == Bodies.ReadCode(tb.c, tb.View(), depth, tokens[n..])
      decreases |tokens| - n
    {
      var t := tokens[n];
      assert tokens[n..][0] == t && tokens[n..][1..] == tokens[n + 1..];
      n := n + 1;
      if t.End? && depth == 0 {
        var _ :- Finish(tb, lo);
        return Ok(n);
      }
      var _ :- Visit(t, depth, tb, lo);
      depth := Bodies.DepthAfter(t, depth);
    }
    r := Err(Text.Eof);
  }

  // ----- functions -----

  /** The words of the declared locals (`read_function_code`). */
  method LocalSize(groups: seq<LocalGroup>) returns (size: nat)
    ensures size == WordLen(GroupTypes(groups))
  {
    size := 0;
    var i := 0;
    assert groups[0..] == groups;
    while i < |groups|
      invariant i <= |groups| && size + WordLen(GroupTypes(groups[i..])) == WordLen(GroupTypes(groups))
    {
      GroupSize(groups, i);
      size := size + groups[i].count * Width(groups[i].ty);
      i := i + 1;
    }
  }

  lemma GroupSize(groups: seq<LocalGroup>, i: nat)
    requires i < |groups|
    ensures WordLen(GroupTypes(groups[i..]))
         == groups[i].count * Width(groups[i].ty) + WordLen(GroupTypes(groups[i + 1..]))
  {
    var g := groups[i];
    assert groups[i..][0] == g && groups[i..][1..] == groups[i + 1..];
    WordLenConcat(Repeat(g.count, g.ty), GroupTypes(groups[i + 1..]));
    Locals.WordLenRepeat(g.count, g.ty);
  }

  /** The groups of declared locals, whose counts are read as 32-bit numbers. */
  method ReadGroups(locals: seq<(nat, ValType)>) returns (r: Result<seq<LocalGroup>, Error>)
    ensures r == Bodies.Groups(locals)
  {
    var groups: seq<LocalGroup> := [];
    assert locals[0..] == locals;
    NoneBefore(Bodies.Groups(locals));
    for i := 0 to |locals|
      invariant Bodies.Groups(locals) ==
                (var rest :- Bodies.Groups(locals[i..]); Ok(groups + rest))
    {
      var (n, t) := locals[i];
      assert locals[i..][0] == locals[i] && locals[i..][1..] == locals[i + 1..];
      if n > 0xFFFF { return Err(Text.TooManyLocals); }
      MoreGroups(groups, LocalGroup(n, t), Bodies.Groups(locals[i + 1..]));
      groups := groups + [LocalGroup(n, t)];
    }
    assert locals[|locals|..] == [] && groups + [] == groups;
    r := Ok(groups);
  }

  lemma NoneBefore<T>(r: Result<seq<T>, Error>)
    ensures r.Ok? ==> [] + r.value == r.value
  {
  }

  lemma MoreGroups(groups: seq<LocalGroup>, g: LocalGroup, rest: Result<seq<LocalGroup>, Error>)
    ensures rest.Ok? ==> groups + ([g] + rest.value) == (groups + [g]) + rest.value
  {
  }

  /** What `read_function_code` leaves in `self.functions[i]`. */
  datatype FunctionCode = FunctionCode(entry: nat, localSize: nat, usage: nat)

  /** The stored facts are those of the function. */
  predicate Describes(fc: FunctionCode, f: Func) {
    fc == FunctionCode(f.entry, f.LocalWords(), f.usage)
  }

  /** `Expr::read`: compile a body; `n` instructions were read. */
  method ReadBody(c: Text.Context, size: nat, code: CodeBuilder, tokens: seq<Bodies.Token>)
    returns (r: Result<(nat, nat), Error>)
    requires code.Valid() && code.options == c.options && Text.OptionsOk(c.options)
    requires WordLen(c.sig.params) <= 0xFF && |code.Contents()| < 0x8000_0000
    requires size == WordLen(GroupTypes(c.groups)) <= 0xFFFF
    modifies code, code.Repr
    ensures code.Valid() && fresh(code.Repr - old(code.Repr))
    ensures match Bodies.ReadFunction(c, old(code.Contents()), tokens)
            case Ok(v) =>
              && r.Ok? && r.value.1 <= |tokens| && tokens[r.value.1..] == v.1 && code.Contents() == v.0.code
              && r.value.0 == v.0.usage
            case Err(e) => r == Err(e)
  {
    hide ChainsOk, StackOk, Bodies.ReadCode;
    var tb := new TextBuilder(c, code);
    var n :- ReadCode(tokens, tb, |code.Contents()|);
    if tb.highwater > 0xFFFF || 2 + size + tb.highwater > 0xFFFF { return Err(Text.StackTooLarge); }
    r := Ok((tb.highwater, n));
  }

  /** `read_function_code`: the groups of locals, the body, and the check that all of it was read. */
  method ReadFunctionCode(
    index: seq<FuncEntry>, options: Text.Options, code: CodeBuilder, d: Bodies.Declared)
    returns (r: Result<FunctionCode, Error>)
    requires code.Valid() && code.options == options && Text.OptionsOk(options)
    requires WordLen(d.sig.params) <= 0xFF && |code.Contents()| < 0x8000_0000
    modifies code, code.Repr
    ensures code.Valid() && fresh(code.Repr - old(code.Repr))
    ensures match Bodies.ReadDeclared(index, options, old(code.Contents()), d)
            case Ok(f) =>
              && r.Ok? && Describes(r.value, f)
              && code.Contents() == Bodies.CodeWith(index, options, old(code.Contents()), d)
            case Err(e) => r == Err(e)
  {
    hide Bodies.ReadFunction, Bodies.Groups;
    var groups :- ReadGroups(d.locals);
    var c := Text.Context(d.sig, groups, index, options);
    var size := LocalSize(groups);
    Bodies.ManyLocals(c, code.Contents(), d.tokens);
    if size > 0xFFFF { return Err(Text.TooManyLocals); }
    var entry := code.Pc();
    var v :- ReadBody(c, size, code, d.tokens);
    if v.1 != |d.tokens| { return Err(Text.MalformedCodeSize); }
    r := Ok(FunctionCode(entry, size, v.0));
  }
}
