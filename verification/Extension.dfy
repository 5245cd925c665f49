/** Every compile step extends the code in a way the finished code respects. */
module Extension {
  import opened Values
  import opened Label
  import opened Ir
  import opened Wasm
  import opened Text
  import opened Chains
  import opened Frames

  /** A completion of the later state completes the earlier one, with the same goals. */
  ghost predicate Back(st: State, st': State) {
    forall code: seq<Word>, goals: seq<Goal> :: Agree(code, st', goals) ==> Agree(code, st, goals)
  }

  predicate EndsWith(s: seq<int>, t: seq<int>) { |t| <= |s| && s[|s| - |t|..] == t }

  /** The first `n` frames keep their slots, in order, behind new ones. */
  predicate KeepsSlots(st: State, st': State, n: nat) {
    && n <= |st.frames| && n <= |st'.frames|
    && forall i :: 0 <= i < n ==> EndsWith(Slots(st', i), Slots(st, i))
  }

  lemma KeepsTwice(st: State, st1: State, st2: State, n: nat)
    requires KeepsSlots(st, st1, n) && KeepsSlots(st1, st2, n)
    ensures KeepsSlots(st, st2, n)
  {
    hide Slots;
    forall i | 0 <= i < n ensures EndsWith(Slots(st2, i), Slots(st, i)) {
      var (s, t, u) := (Slots(st, i), Slots(st1, i), Slots(st2, i));
      assert EndsWith(t, s) && EndsWith(u, t);
      assert u[|u| - |s|..] == u[|u| - |t|..][|t| - |s|..];
    }
  }

  /** The chain invariant holds afterwards, every open frame keeps its slots behind new ones, code below
      `lo` is untouched, and completions go back. */
  ghost predicate Extends(st: State, st': State, lo: nat) {
    && ChainsOk(st', lo) && SameShape(st, st')
    && lo <= |st.code| <= |st'.code|
    && (forall k :: 0 <= k < lo ==> st'.code[k] == st.code[k])
    && KeepsSlots(st, st', |st.frames|)
    && Back(st, st')
  }

  lemma ExtendsTrans(st: State, st1: State, st2: State, lo: nat)
    requires Extends(st, st1, lo) && Extends(st1, st2, lo)
    ensures Extends(st, st2, lo)
  {
    hide Agree, ChainsOk, KeepsSlots;
    KeepsTwice(st, st1, st2, |st.frames|);
  }

  lemma ExtendsAppend(st: State, st': State, lo: nat)
    requires ChainsOk(st, lo) && SameFrames(st, st') && st.code <= st'.code && |st'.code| < 0x8000_0000
    ensures Extends(st, st', lo)
  {
    AppendSlots(st, st', lo);
    forall code: seq<Word>, goals: seq<Goal> | Agree(code, st', goals) ensures Agree(code, st, goals) {
      AppendBack(code, st, st', goals, lo);
    }
  }

  lemma EmitExtends(c: Context, st: State, ws: seq<Word>, lo: nat)
    requires OptionsOk(c.options) && ChainsOk(st, lo) && Emit(c, st, ws).Ok?
    ensures Extends(st, Emit(c, st, ws).value, lo)
  {
    ExtendsAppend(st, Emit(c, st, ws).value, lo);
  }

  /** What a completion holds where `ws` was emitted. */
  lemma EmittedAt(c: Context, code: seq<Word>, st: State, ws: seq<Word>, goals: seq<Goal>, lo: nat)
    requires OptionsOk(c.options) && ChainsOk(st, lo) && Emit(c, st, ws).Ok?
    requires Agree(code, Emit(c, st, ws).value, goals)
    ensures At(code, |st.code|, ws)
  {
    var st' := Emit(c, st, ws).value;
    AppendBack(code, st, st', goals, lo);
    assert forall k :: 0 <= k < |ws| ==> st'.code[|st.code| + k] == ws[k];
  }

  // ----- the type stack leaves the code alone -----

  predicate SameCode(st: State, st': State) {
    st'.code == st.code && st'.frames == st.frames
  }

  lemma {:induction false} PopTypesSame(st: State, ts: seq<ValType>)
    requires PopTypes(st, ts).Ok?
    ensures SameCode(st, PopTypes(st, ts).value)
    decreases |ts|
  {
    if ts != [] {
      PopTypesSame(PopType(st, ts[|ts| - 1]).value, ts[..|ts| - 1]);
    }
  }

  lemma MarkUnreachableSame(st: State)
    ensures SameFrames(st, MarkUnreachable(st)) && MarkUnreachable(st).code == st.code
  {
  }

  // ----- branch slots -----

  lemma SlotEmitted(code: seq<Word>, slot: U32)
    ensures SlotIn(code + Words32(slot), |code|) && Slot(code + Words32(slot), |code|) == slot
  {
  }

  /** A branch to a block or if above the function frame puts its slot on that frame's chain. */
  lemma LabelLinked(c: Context, st: State, l: nat, lo: nat)
    requires OptionsOk(c.options) && ChainsOk(st, lo) && WriteLabelTarget(c, st, l).Ok?
    requires 1 <= |st.frames| - 1 - l && !st.frames[|st.frames| - 1 - l].kind.Loop?
    ensures var st' := WriteLabelTarget(c, st, l).value.0;
            var f := st.frames[|st.frames| - 1 - l];
            && SlotLinked(st, st', |st.frames| - 1 - l)
            && Label.Arity(Slot(st'.code, |st.code|)) == ResultWords(f.out)
            && Depth(Slot(st'.code, |st.code|)) == Above(st, f)
  {
    var idx := |st.frames| - 1 - l;
    var f := st.frames[idx];
    if f.target != SENTINEL {
      SlotsIn(st, idx, lo);
      assert f.target in Slots(st, idx);
      JumpOffsetRange(|st.code|, f.target);
    }
    var offset := JumpOffset(|st.code|, f.target).value;
    PackFields(ResultWords(f.out), Above(st, f), offset);
    SlotEmitted(st.code, Pack(ResultWords(f.out), Above(st, f), offset));
  }

  lemma LabelExtends(c: Context, st: State, l: nat, lo: nat)
    requires OptionsOk(c.options) && ChainsOk(st, lo) && WriteLabelTarget(c, st, l).Ok?
    ensures Extends(st, WriteLabelTarget(c, st, l).value.0, lo)
    ensures |WriteLabelTarget(c, st, l).value.0.code| == |st.code| + 2
    ensures WriteLabelTarget(c, st, l).value.0.values == st.values
  {
    var idx := |st.frames| - 1 - l;
    var st' := WriteLabelTarget(c, st, l).value.0;
    if idx == 0 || st.frames[idx].kind.Loop? {
      ExtendsAppend(st, st', lo);
    } else {
      LabelLinked(c, st, l, lo);
      LinkOk(st, st', idx, lo);
      LinkSlots(st, st', idx, lo);
      assert FrameOk(st, idx, lo);
      forall code: seq<Word>, goals: seq<Goal> | Agree(code, st', goals) ensures Agree(code, st, goals) {
        LinkBack(code, st, st', idx, goals, lo);
      }
    }
  }

  /** What the finished code holds in a branch slot: the arity of the label, the operand words to
      drop, and a jump that is zero exactly for the function's own label. */
  predicate SlotFor(c: Context, st: State, l: nat, goals: seq<Goal>, pc: int, slot: U32)
    requires l < |st.frames| == |goals|
  {
    var idx := |st.frames| - 1 - l;
    var f := st.frames[idx];
    if idx == 0 then Label.Arity(slot) == ResultWords(c.sig.result) && Jump(slot) == 0
    else
      && Depth(slot) == Above(st, f)
      && Jump(slot) != 0
      && if f.kind.Loop? then Label.Arity(slot) == 0 && Jump(slot) == f.target - pc
         else Label.Arity(slot) == ResultWords(f.out) && Jump(slot) == goals[idx].branch - pc
  }

  /** For a loop, the slot must lie after the loop's start. */
  predicate PastTarget(st: State, l: nat)
    requires l < |st.frames|
  {
    var f := st.frames[|st.frames| - 1 - l];
    f.kind.Loop? ==> f.target < |st.code|
  }

  lemma ReturnMeaning(c: Context, code: seq<Word>, st: State, l: nat, goals: seq<Goal>, lo: nat)
    requires OptionsOk(c.options) && ChainsOk(st, lo) && WriteLabelTarget(c, st, l).Ok?
    requires l == |st.frames| - 1
    requires Agree(code, WriteLabelTarget(c, st, l).value.0, goals)
    ensures |goals| == |st.frames| && SlotIn(code, |st.code|)
    ensures SlotFor(c, st, l, goals, |st.code|, Slot(code, |st.code|))
  {
    PackFields(ResultWords(c.sig.result), 0, 0);
    var slot := Pack(ResultWords(c.sig.result), 0, 0);
    hide Pack, Jump, Depth, Label.Arity, Slot, Words32;
    SlotFinal(code, st, WriteLabelTarget(c, st, l).value.0, slot, goals, lo);
  }

  lemma LoopSlot(c: Context, st: State, l: nat)
    requires OptionsOk(c.options) && WriteLabelTarget(c, st, l).Ok?
    requires l < |st.frames| - 1 && st.frames[|st.frames| - 1 - l].kind.Loop?
    requires |st.code| < 0x8000_0000 && 0 <= st.frames[|st.frames| - 1 - l].target < |st.code|
    ensures var f := st.frames[|st.frames| - 1 - l];
            var st' := WriteLabelTarget(c, st, l).value.0;
            && Above(st, f) <= 0xFF && -0x20_0000 <= f.target - |st.code| < 0
            && st' == st.(code := st.code + Words32(Pack(0, Above(st, f), f.target - |st.code|)))
            && |st'.code| < 0x8000_0000
  {
    var f := st.frames[|st.frames| - 1 - l];
    hide Above, Pack;
    JumpOffsetRange(|st.code|, f.target);
  }

  lemma LoopMeaning(c: Context, code: seq<Word>, st: State, l: nat, goals: seq<Goal>, lo: nat)
    requires OptionsOk(c.options) && ChainsOk(st, lo) && WriteLabelTarget(c, st, l).Ok?
    requires l < |st.frames| - 1 && st.frames[|st.frames| - 1 - l].kind.Loop? && PastTarget(st, l)
    requires Agree(code, WriteLabelTarget(c, st, l).value.0, goals)
    ensures |goals| == |st.frames| && SlotIn(code, |st.code|)
    ensures SlotFor(c, st, l, goals, |st.code|, Slot(code, |st.code|))
  {
    hide Pack, Jump, Depth, Label.Arity, Slot, Words32, Above, WriteLabelTarget;
    var idx := |st.frames| - 1 - l;
    var f := st.frames[idx];
    assert FrameOk(st, idx, lo);
    LoopSlot(c, st, l);
    PackFields(0, Above(st, f), f.target - |st.code|);
    SlotFinal(code, st, WriteLabelTarget(c, st, l).value.0, Pack(0, Above(st, f), f.target - |st.code|), goals, lo);
  }

  lemma ForwardMeaning(c: Context, code: seq<Word>, st: State, l: nat, goals: seq<Goal>, lo: nat)
    requires OptionsOk(c.options) && ChainsOk(st, lo) && WriteLabelTarget(c, st, l).Ok?
    requires l < |st.frames| - 1 && !st.frames[|st.frames| - 1 - l].kind.Loop?
    requires Agree(code, WriteLabelTarget(c, st, l).value.0, goals)
    ensures |goals| == |st.frames| && SlotIn(code, |st.code|)
    ensures SlotFor(c, st, l, goals, |st.code|, Slot(code, |st.code|))
  {
    hide Pack, Jump, Depth, Label.Arity, Slot, Words32, Above, Agree, ChainsOk, WriteLabelTarget, Resolved, SameFields;
    var idx := |st.frames| - 1 - l;
    LabelLinked(c, st, l, lo);
    IfHasTarget(st, idx, lo);
    var st' := WriteLabelTarget(c, st, l).value.0;
    AgreeGoal(code, st', goals, idx);
    LinkBack(code, st, st', idx, goals, lo);
    var (g, s) := (Slot(code, |st.code|), Slot(st'.code, |st.code|));
    var delta := goals[idx].branch - |st.code|;
    ResolvedJump(g, s, delta);
    ResolvedFields(g, s, delta);
    SameFieldsElim(g, s);
  }

  lemma IfHasTarget(st: State, idx: nat, lo: nat)
    requires ChainsOk(st, lo) && idx < |st.frames|
    ensures st.frames[idx].kind.If? ==> st.frames[idx].target != SENTINEL
  {
    assert FrameOk(st, idx, lo);
  }

  lemma AgreeGoal(code: seq<Word>, st: State, goals: seq<Goal>, idx: nat)
    requires Agree(code, st, goals) && 1 <= idx < |st.frames| && !st.frames[idx].kind.Loop?
    ensures |goals| == |st.frames| && |st.code| <= goals[idx].branch && |st.code| <= |code|
  {
  }

  lemma ResolvedJump(g: U32, s: U32, delta: int)
    requires Resolved(g, s, delta)
    ensures Jump(g) == delta
  {
  }

  lemma SameFieldsElim(g: U32, s: U32)
    requires SameFields(g, s)
    ensures Label.Arity(g) == Label.Arity(s) && Depth(g) == Depth(s)
  {
  }

  lemma LabelMeaning(c: Context, code: seq<Word>, st: State, l: nat, goals: seq<Goal>, lo: nat)
    requires OptionsOk(c.options) && ChainsOk(st, lo) && WriteLabelTarget(c, st, l).Ok?
    requires PastTarget(st, l)
    requires Agree(code, WriteLabelTarget(c, st, l).value.0, goals)
    ensures |goals| == |st.frames| && SlotIn(code, |st.code|)
    ensures SlotFor(c, st, l, goals, |st.code|, Slot(code, |st.code|))
  {
    hide SlotFor, Agree, ChainsOk, Slot;
    if l == |st.frames| - 1 {
      ReturnMeaning(c, code, st, l, goals, lo);
    } else if st.frames[|st.frames| - 1 - l].kind.Loop? {
      LoopMeaning(c, code, st, l, goals, lo);
    } else {
      ForwardMeaning(c, code, st, l, goals, lo);
    }
  }

  lemma SlotFinal(code: seq<Word>, st: State, st': State, slot: U32, goals: seq<Goal>, lo: nat)
    requires ChainsOk(st, lo) && SameFrames(st, st') && st'.code == st.code + Words32(slot)
    requires |st'.code| < 0x8000_0000 && Agree(code, st', goals)
    ensures SlotIn(code, |st.code|) && Slot(code, |st.code|) == slot
  {
    AppendBack(code, st, st', goals, lo);
    SlotEmitted(st.code, slot);
    SlotEqual(code, st'.code, |st.code|);
  }

  // ----- instructions -----

  lemma ExtendsSame(st: State, st': State, lo: nat)
    requires ChainsOk(st, lo) && SameFrames(st, st') && st'.code == st.code
    ensures Extends(st, st', lo)
  {
    ExtendsAppend(st, st', lo);
  }

  predicate IsBranch(op: Op) { op.Br? || op.BrIf? || op.BrTable? }

  /** `st'` is `st` with more words at the end and the same chains. */
  predicate Appends(st: State, st': State) {
    SameFrames(st, st') && st.code <= st'.code && |st'.code| < 0x8000_0000
  }

  lemma CallAppends(c: Context, st: State, op: Op)
    requires OptionsOk(c.options) && CompileOp(c, st, op).Ok? && (op.Num? || op.Call?)
    ensures Appends(st, CompileOp(c, st, op).value)
  {
    hide Height, Width, NumParams, Encode, Imm8;
    if op.Num? {
      PopTypesSame(st, NumParams(op.op));
    } else {
      PopTypesSame(st, c.index[op.x].sig.params);
    }
  }

  lemma LocalAppends(c: Context, st: State, op: Op)
    requires OptionsOk(c.options) && CompileOp(c, st, op).Ok? && (op.LocalGet? || op.LocalSet? || op.LocalTee?)
    ensures Appends(st, CompileOp(c, st, op).value)
  {
    hide Height, Width, Encode, Imm8, GetLocal, TypeTag;
  }

  /** An instruction that is not a branch only appends words. */
  lemma PlainAppends(c: Context, st: State, op: Op)
    requires OptionsOk(c.options) && CompileOp(c, st, op).Ok? && !IsBranch(op) && |st.code| < 0x8000_0000
    ensures Appends(st, CompileOp(c, st, op).value)
  {
    if op.Num? || op.Call? {
      CallAppends(c, st, op);
    } else if op.LocalGet? || op.LocalSet? || op.LocalTee? {
      LocalAppends(c, st, op);
    } else {
      hide Height, Width, ConstWords, Imm8, TypeTag, Words32, Words64;
    }
  }

  lemma BrExtends(c: Context, st: State, l: nat, lo: nat)
    requires OptionsOk(c.options) && ChainsOk(st, lo) && CompileBr(c, st, l).Ok?
    ensures Extends(st, CompileBr(c, st, l).value, lo)
  {
    hide ChainsOk, Agree, Extends, WriteLabelTarget, Emit;
    var st1 := Emit(c, st, [Imm8(BR, 0)]).value;
    EmitExtends(c, st, [Imm8(BR, 0)], lo);
    ExtendsElim(st, st1, lo);
    LabelExtends(c, st1, l, lo);
    var (st2, r) := WriteLabelTarget(c, st1, l).value;
    ExtendsElim(st1, st2, lo);
    ExtendsSame(st2, CompileBr(c, st, l).value, lo);
    ExtendsTrans(st, st1, st2, lo);
    ExtendsTrans(st, st2, CompileBr(c, st, l).value, lo);
  }

  lemma ExtendsElim(st: State, st': State, lo: nat)
    requires Extends(st, st', lo)
    ensures ChainsOk(st', lo) && SameShape(st, st') && |st.code| <= |st'.code|
  {
  }

  lemma BrIfExtends(c: Context, st: State, l: nat, lo: nat)
    requires OptionsOk(c.options) && ChainsOk(st, lo) && CompileBrIf(c, st, l).Ok?
    ensures Extends(st, CompileBrIf(c, st, l).value, lo)
  {
    hide ChainsOk, Agree, Extends, WriteLabelTarget, Emit, Height;
    var st1 := PopType(st, ValType.I32).value;
    ExtendsSame(st, st1, lo);
    ExtendsElim(st, st1, lo);
    var st2 := Emit(c, st1, [Imm8(BR_IF, 0)]).value;
    EmitExtends(c, st1, [Imm8(BR_IF, 0)], lo);
    ExtendsElim(st1, st2, lo);
    LabelExtends(c, st2, l, lo);
    var (st3, r) := WriteLabelTarget(c, st2, l).value;
    ExtendsElim(st2, st3, lo);
    ExtendsSame(st3, CompileBrIf(c, st, l).value, lo);
    ExtendsTrans(st, st1, st2, lo);
    ExtendsTrans(st, st2, st3, lo);
    ExtendsTrans(st, st3, CompileBrIf(c, st, l).value, lo);
  }

  lemma {:induction false} TableExtends(c: Context, st: State, ls: seq<nat>, lo: nat)
    requires OptionsOk(c.options) && ChainsOk(st, lo) && TableBranches(c, st, ls).Ok?
    ensures Extends(st, TableBranches(c, st, ls).value, lo)
    ensures |TableBranches(c, st, ls).value.code| == |st.code| + 2 * |ls|
    ensures TableBranches(c, st, ls).value.values == st.values
    decreases |ls|
  {
    hide ChainsOk, Agree, Extends, WriteLabelTarget;
    if ls == [] {
      ExtendsSame(st, st, lo);
    } else {
      LabelExtends(c, st, ls[0], lo);
      var (st1, r) := WriteLabelTarget(c, st, ls[0]).value;
      ExtendsElim(st, st1, lo);
      var st2 := CheckTable(st1, r).value;
      ExtendsSame(st1, st2, lo);
      ExtendsElim(st1, st2, lo);
      TableExtends(c, st2, ls[1..], lo);
      ExtendsTrans(st, st1, st2, lo);
      ExtendsTrans(st, st2, TableBranches(c, st, ls).value, lo);
    }
  }

  lemma BrTableExtends(c: Context, st: State, ls: seq<nat>, default: nat, lo: nat)
    requires OptionsOk(c.options) && ChainsOk(st, lo) && CompileBrTable(c, st, ls, default).Ok?
    ensures Extends(st, CompileBrTable(c, st, ls, default).value, lo)
  {
    hide ChainsOk, Agree, Extends, WriteLabelTarget, Emit, TableBranches, Imm8Or16;
    var st1 := PopType(st, ValType.I32).value;
    ExtendsSame(st, st1, lo);
    ExtendsElim(st, st1, lo);
    var st2 := Emit(c, st1, Imm8Or16(BR_TABLE, |ls|)).value;
    EmitExtends(c, st1, Imm8Or16(BR_TABLE, |ls|), lo);
    ExtendsElim(st1, st2, lo);
    TableExtends(c, st2, ls, lo);
    var st3 := TableBranches(c, st2, ls).value;
    ExtendsElim(st2, st3, lo);
    LabelExtends(c, st3, default, lo);
    var (st4, r) := WriteLabelTarget(c, st3, default).value;
    ExtendsElim(st3, st4, lo);
    var st5 := CheckAndClearTable(st4, r).value;
    MarkUnreachableSame(PopResult(st5, r).value);
    ExtendsSame(st4, CompileBrTable(c, st, ls, default).value, lo);
    ExtendsTrans(st, st1, st2, lo);
    ExtendsTrans(st, st2, st3, lo);
    ExtendsTrans(st, st3, st4, lo);
    ExtendsTrans(st, st4, CompileBrTable(c, st, ls, default).value, lo);
  }

  lemma OpExtends(c: Context, st: State, op: Op, lo: nat)
    requires OptionsOk(c.options) && ChainsOk(st, lo) && CompileOp(c, st, op).Ok?
    ensures Extends(st, CompileOp(c, st, op).value, lo)
  {
    hide Extends, ChainOk, Chain;
    if op.Br? {
      BrExtends(c, st, op.l, lo);
    } else if op.BrIf? {
      BrIfExtends(c, st, op.l, lo);
    } else if op.BrTable? {
      BrTableExtends(c, st, op.ls, op.default, lo);
    } else {
      PlainAppends(c, st, op);
      ExtendsAppend(st, CompileOp(c, st, op).value, lo);
    }
  }

  // ----- blocks, loops and ifs -----

  lemma EnterOpens(c: Context, st: State, rt: ResultType, lo: nat)
    requires OptionsOk(c.options) && ChainsOk(st, lo)
    ensures EnterBlock(c, st, rt).Ok? ==> Opened(st, EnterBlock(c, st, rt).value, lo)
    ensures EnterLoop(c, st, rt).Ok? ==> Opened(st, EnterLoop(c, st, rt).value, lo)
  {
  }

  lemma EnterIfOpens(c: Context, st: State, rt: ResultType, lo: nat)
    requires OptionsOk(c.options) && ChainsOk(st, lo) && EnterIf(c, st, rt).Ok?
    ensures var st' := EnterIf(c, st, rt).value;
            && Opened(st, st', lo)
            && Slots(st', |st.frames|) == [|st.code| + 1]
            && SlotIn(st'.code, |st.code| + 1)
            && Slot(st'.code, |st.code| + 1) == Pack(ResultWords(rt), 0, 0)
            && Jump(Slot(st'.code, |st.code| + 1)) == 0
  {
    var st' := EnterIf(c, st, rt).value;
    var code1 := st.code + [Imm8(IF, 0)];
    assert st'.code == code1 + Words32(Pack(ResultWords(rt), 0, 0));
    SlotEmitted(code1, Pack(ResultWords(rt), 0, 0));
    PackFields(ResultWords(rt), 0, 0);
  }

  lemma DropFrameCode(st: State)
    requires st.frames != [] && DropFrame(st).Ok?
    ensures DropFrame(st).value.frames == st.frames[..|st.frames| - 1] && DropFrame(st).value.code == st.code
  {
  }

  lemma PopControlCloses(c: Context, st: State, lo: nat)
    requires OptionsOk(c.options) && ChainsOk(st, lo) && |st.frames| >= 2 && PopControl(c, st).Ok?
    ensures Closed(st, PopControl(c, st).value.0)
  {
    hide Slot, Jump, Resolved, ChainOk, DropFrame, Backpatch;
    var f := Innermost(st);
    DropFrameCode(st);
    assert FrameOk(st, |st.frames| - 1, lo);
    if !f.kind.Loop? && f.target != SENTINEL {
      BackpatchSlots(c.options, st.code, f.target, |st.code|, 0, lo);
    }
  }

  lemma ExitCloses(c: Context, st: State, lo: nat)
    requires OptionsOk(c.options) && ChainsOk(st, lo) && |st.frames| >= 2 && ExitBlock(c, st).Ok?
    ensures Closed(st, ExitBlock(c, st).value)
    ensures ExitBlock(c, st).value.code == PopControl(c, st).value.0.code
  {
    hide Closed, ChainsOk, PopControl;
    PopControlCloses(c, st, lo);
    ClosedSame(st, PopControl(c, st).value.0, ExitBlock(c, st).value);
  }

  lemma ClosedSame(st: State, st1: State, st2: State)
    requires Closed(st, st1) && SameCode(st1, st2)
    ensures Closed(st, st2)
  {
  }

  /** A completion goes back through the end of a block. */
  lemma CloseGoals(code: seq<Word>, st2: State, st3: State, goals: seq<Goal>, lo: nat)
    requires ChainsOk(st2, lo) && Closed(st2, st3) && Agree(code, st3, goals)
    ensures Agree(code, st2, goals + [Goal(|st2.code|, |st2.code|)])
  {
    CloseBack(code, st2, st3, goals, |st2.code|, lo);
  }

  /** A whole block, from opening to closing its frame. */
  lemma Bracket(st: State, st1: State, st2: State, st3: State, lo: nat)
    requires ChainsOk(st, lo) && Opened(st, st1, lo) && Extends(st1, st2, lo) && Closed(st2, st3)
    ensures Extends(st, st3, lo)
  {
    hide Agree, Chain, ChainOk, Covers, Slots, FrameOk, Resolved;
    CloseSlots(st2, st3, lo);
    BracketCode(st, st1, st2, st3, lo);
    OpenSlots(st, st1, lo);
    assert KeepsSlots(st1, st2, |st.frames|);
    forall code: seq<Word>, goals: seq<Goal> | Agree(code, st3, goals) ensures Agree(code, st, goals) {
      CloseGoals(code, st2, st3, goals, lo);
      AgreeLength(code, st3, goals);
      OpenBack(code, st, st1, goals, Goal(|st2.code|, |st2.code|), lo);
    }
  }

  lemma AgreeLength(code: seq<Word>, st: State, goals: seq<Goal>)
    requires Agree(code, st, goals)
    ensures |goals| == |st.frames|
  {
  }

  /** Code below `lo` is no slot, so it survives closing. */
  lemma BracketCode(st: State, st1: State, st2: State, st3: State, lo: nat)
    requires ChainsOk(st, lo) && Opened(st, st1, lo) && Extends(st1, st2, lo) && Closed(st2, st3)
    ensures forall k :: 0 <= k < lo ==> st3.code[k] == st.code[k]
  {
    SlotsIn(st2, |st3.frames|, lo);
    hide Chain, ChainOk, Slot, Resolved;
    forall k | 0 <= k < lo ensures st3.code[k] == st.code[k] {
      assert !Covers(Slots(st2, |st3.frames|), k);
    }
  }

  // ----- else -----

  /** The state in which `else` has put its branch over the else part on the if's chain. */
  function ElseBranch(c: Context, st: State): Result<State, Error> {
    var st1 :- Emit(c, st, [Imm8(BR, 0)]);
    var (st2, _) :- WriteLabelTarget(c, st1, 0);
    Ok(st2)
  }

  lemma ElseBranchExtends(c: Context, st: State, lo: nat)
    requires OptionsOk(c.options) && ChainsOk(st, lo) && ElseBranch(c, st).Ok?
    ensures Extends(st, ElseBranch(c, st).value, lo)
    ensures |ElseBranch(c, st).value.code| == |st.code| + 3
  {
    hide ChainsOk, Extends, WriteLabelTarget;
    var st1 := Emit(c, st, [Imm8(BR, 0)]).value;
    EmitExtends(c, st, [Imm8(BR, 0)], lo);
    ExtendsElim(st, st1, lo);
    LabelExtends(c, st1, 0, lo);
    ExtendsTrans(st, st1, ElseBranch(c, st).value, lo);
  }

  /** An if keeps its placeholder, so the branch over the else part is never alone on the chain. */
  lemma ElseLinks(c: Context, st: State, lo: nat)
    requires OptionsOk(c.options) && ChainsOk(st, lo) && ElseBranch(c, st).Ok?
    requires |st.frames| >= 2 && Innermost(st).kind.If?
    ensures var st2 := ElseBranch(c, st).value;
            && |st2.frames| == |st.frames|
            && (forall i :: 0 <= i < |st.frames| - 1 ==> SameFrame(st.frames[i], st2.frames[i]))
            && Innermost(st2) == Innermost(st).(target := |st.code| + 1)
            && SlotIn(st2.code, |st.code| + 1) && Jump(Slot(st2.code, |st.code| + 1)) <= -2
  {
    var st1 := Emit(c, st, [Imm8(BR, 0)]).value;
    EmitExtends(c, st, [Imm8(BR, 0)], lo);
    var n := |st.frames| - 1;
    assert FrameOk(st1, n, lo);
    hide Slot, Jump, ChainOk, Chain, Above, Pack;
    LabelLinked(c, st1, 0, lo);
    LinkNonzero(st1, n, lo);
  }

  lemma ElseIsIf(c: Context, st: State, lo: nat)
    requires ChainsOk(st, lo) && Else(c, st).Ok?
    ensures ElseBranch(c, st).Ok? && |st.frames| >= 2 && Innermost(st).kind.If?
  {
    hide Slot, Jump, ChainOk, Chain, Above, Pack, SplitTail, DropFrame, JumpOffset, Words32;
    assert FrameOk(st, 0, lo);
    assert Innermost(ElseBranch(c, st).value).kind == Innermost(st).kind;
  }

  lemma ElseSplits(c: Context, st: State, lo: nat)
    requires OptionsOk(c.options) && ChainsOk(st, lo) && Else(c, st).Ok?
    ensures ElseBranch(c, st).Ok? && |st.frames| >= 2 && Innermost(st).kind.If?
    ensures Split(ElseBranch(c, st).value, Else(c, st).value)
  {
    hide Slot, Jump, ChainOk, Chain, Above, Pack, SplitTail, DropFrame, WriteLabelTarget, TailSplit, ChainsOk;
    hide Extends, Emit;
    ElseIsIf(c, st, lo);
    var st2 := ElseBranch(c, st).value;
    ElseBranchExtends(c, st, lo);
    ExtendsElim(st, st2, lo);
    ElseLinks(c, st, lo);
    DropFrameCode(st2);
    ElseCut(c, st2, lo);
  }

  lemma ElseCut(c: Context, st2: State, lo: nat)
    requires OptionsOk(c.options) && ChainsOk(st2, lo) && |st2.frames| >= 2 && Innermost(st2).kind.If?
    requires Innermost(st2).target != SENTINEL && SlotIn(st2.code, Innermost(st2).target)
    requires Jump(Slot(st2.code, Innermost(st2).target)) <= -2
    requires DropFrame(st2).Ok?
    requires SplitTail(c.options, st2.code, Innermost(st2).target, Innermost(st2).target, SENTINEL, |st2.code|, 0).Ok?
    ensures var h := Innermost(st2).target;
            var next := h + Jump(Slot(st2.code, h));
            var (code, rest) := SplitTail(c.options, st2.code, h, h, SENTINEL, |st2.code|, 0).value;
            rest == h && TailSplit(st2.code, code, Tail(st2.code, next), BeforeTail(st2.code, h, next), |st2.code|)
  {
    var h := Innermost(st2).target;
    var next := h + Jump(Slot(st2.code, h));
    assert FrameOk(st2, |st2.frames| - 1, lo);
    SplitTailSlots(c.options, st2.code, h, next, h, |st2.code|, 1, lo);
  }

  /** A completion goes back through an `else`. */
  lemma ElseGoals(c: Context, code: seq<Word>, st: State, goals: seq<Goal>, goal: Goal, lo: nat)
    requires OptionsOk(c.options) && ChainsOk(st, lo) && Else(c, st).Ok?
    requires Agree(code, Else(c, st).value, goals + [goal])
    ensures ElseBranch(c, st).Ok?
    ensures Agree(code, ElseBranch(c, st).value, goals + [Goal(goal.branch, |st.code| + 3)])
  {
    hide Agree, Split, ChainsOk, Extends, WriteLabelTarget, Emit;
    ElseSplits(c, st, lo);
    ElseBranchExtends(c, st, lo);
    ExtendsElim(st, ElseBranch(c, st).value, lo);
    SplitBack(code, ElseBranch(c, st).value, Else(c, st).value, goals, goal, lo);
  }

  lemma BackElim(code: seq<Word>, st: State, st': State, goals: seq<Goal>, lo: nat)
    requires Extends(st, st', lo) && Agree(code, st', goals)
    ensures Agree(code, st, goals) && ChainsOk(st', lo)
  {
  }

  lemma ElseExtendsCode(c: Context, st: State, lo: nat)
    requires OptionsOk(c.options) && ChainsOk(st, lo) && Else(c, st).Ok?
    ensures var st' := Else(c, st).value;
            && ChainsOk(st', lo) && |st'.frames| == |st.frames| && |st.code| <= |st'.code|
            && (forall i :: 0 <= i < |st.frames| - 1 ==> SameFrame(st.frames[i], st'.frames[i]))
            && (forall k :: 0 <= k < lo ==> st'.code[k] == st.code[k])
            && KeepsSlots(st, st', |st.frames| - 1)
  {
    hide Agree, Chain, ChainOk, Resolved, Slot, Jump, Emit, WriteLabelTarget, TailSplit;
    ElseSplits(c, st, lo);
    var st2 := ElseBranch(c, st).value;
    ElseBranchExtends(c, st, lo);
    SplitOk(st2, Else(c, st).value, lo);
    SplitWords(st2, Else(c, st).value, lo);
    SlotsIn(st2, |st2.frames| - 1, lo);
    forall k | 0 <= k < lo ensures Else(c, st).value.code[k] == st2.code[k] {
      assert !Covers(Slots(st2, |st2.frames| - 1), k);
    }
    ElseLinks(c, st, lo);
  }

  /** An if with an else part, from opening to closing. */
  lemma BracketElse(c: Context, st: State, st1: State, st2: State, st3: State, st4: State, st5: State, lo: nat)
    requires OptionsOk(c.options) && ChainsOk(st, lo) && Opened(st, st1, lo) && Extends(st1, st2, lo)
    requires Else(c, st2) == Result.Ok(st3) && ChainsOk(st3, lo) && Extends(st3, st4, lo) && Closed(st4, st5)
    ensures Extends(st, st5, lo)
  {
    hide Agree, Chain, ChainOk, Covers, Slots, FrameOk, Resolved, Else;
    ExtendsElim(st1, st2, lo);
    ElseExtendsCode(c, st2, lo);
    OpenSlots(st, st1, lo);
    CloseSlots(st4, st5, lo);
    ArmSlots(st, st1, st2, st3, st4, st5);
    BracketElseCode(st3, st4, st5, lo);
    forall code: seq<Word>, goals: seq<Goal> | Agree(code, st5, goals) ensures Agree(code, st, goals) {
      AgreeLength(code, st5, goals);
      ElseBack(c, code, st, st1, st2, st3, st4, st5, goals, lo);
    }
  }

  lemma ArmSlots(st: State, st1: State, st2: State, st3: State, st4: State, st5: State)
    requires |st1.frames| == |st.frames| + 1 && |st3.frames| == |st2.frames| == |st1.frames|
    requires |st4.frames| == |st3.frames| && |st5.frames| == |st.frames|
    requires forall i :: 0 <= i < |st.frames| ==> Slots(st1, i) == Slots(st, i)
    requires KeepsSlots(st1, st2, |st1.frames|)
    requires KeepsSlots(st2, st3, |st.frames|) && KeepsSlots(st3, st4, |st3.frames|)
    requires forall i :: 0 <= i < |st5.frames| ==> Slots(st5, i) == Slots(st4, i)
    ensures KeepsSlots(st, st5, |st.frames|)
  {
    hide Slots, EndsWith;
    KeepsTwice(st1, st2, st3, |st.frames|);
    KeepsTwice(st1, st3, st4, |st.frames|);
  }

  lemma BracketElseCode(st3: State, st4: State, st5: State, lo: nat)
    requires ChainsOk(st3, lo) && Extends(st3, st4, lo) && Closed(st4, st5)
    ensures forall k :: 0 <= k < lo ==> st5.code[k] == st3.code[k]
  {
    SlotsIn(st4, |st5.frames|, lo);
    hide Chain, ChainOk, Slot, Resolved;
    forall k | 0 <= k < lo ensures st5.code[k] == st3.code[k] {
      assert !Covers(Slots(st4, |st5.frames|), k);
    }
  }

  /** The slot that `else` cuts off is the placeholder which the `if` emitted: the word behind the if's
      opcode. */
  lemma ElseCutsPlaceholder(c: Context, st: State, st1: State, st2: State, rt: ResultType, lo: nat)
    requires OptionsOk(c.options) && ChainsOk(st, lo) && EnterIf(c, st, rt) == Result.Ok(st1)
    requires Extends(st1, st2, lo) && Else(c, st2).Ok?
    ensures ElseBranch(c, st2).Ok? && ElseBranch(c, st2).value.frames != []
    ensures CutTail(ElseBranch(c, st2).value) == |st.code| + 1
  {
    hide Agree, Chain, ChainOk, Slot, Jump, EnterIf, Else, Emit, WriteLabelTarget, ElseBranch, Split;
    EnterIfOpens(c, st, rt, lo);
    ElseSplits(c, st2, lo);
    ElseBranchExtends(c, st2, lo);
    var (n, st3) := (|st.frames|, ElseBranch(c, st2).value);
    KeepsTwice(st1, st2, st3, n + 1);
    assert EndsWith(Slots(st3, n), [|st.code| + 1]);
    CutIsLast(c, st2, st3, lo);
  }

  /** The slot cut off is the last one of the chain. */
  lemma CutIsLast(c: Context, st2: State, st3: State, lo: nat)
    requires OptionsOk(c.options) && ChainsOk(st2, lo) && ElseBranch(c, st2) == Result.Ok(st3)
    requires |st2.frames| >= 2 && Innermost(st2).kind.If?
    ensures |st3.frames| == |st2.frames| && Slots(st3, |st3.frames| - 1) != []
    ensures CutTail(st3) == Slots(st3, |st3.frames| - 1)[|Slots(st3, |st3.frames| - 1)| - 1]
  {
    hide Slot, Jump, ElseBranch;
    ElseLinks(c, st2, lo);
  }

  /** The goals seen from inside an if with an else part: branches out of it lead to its end, the
      false branch leads to the start of the else part. */
  lemma ElseBack(
    c: Context, code: seq<Word>, st: State, st1: State, st2: State, st3: State, st4: State, st5: State,
    goals: seq<Goal>, lo: nat)
    requires OptionsOk(c.options) && ChainsOk(st, lo) && Opened(st, st1, lo) && Extends(st1, st2, lo)
    requires Else(c, st2) == Result.Ok(st3) && ChainsOk(st3, lo) && Extends(st3, st4, lo) && Closed(st4, st5)
    requires Agree(code, st5, goals)
    ensures Agree(code, st4, goals + [Goal(|st4.code|, |st4.code|)])
    ensures Agree(code, st3, goals + [Goal(|st4.code|, |st4.code|)])
    ensures ElseBranch(c, st2).Ok?
    ensures Agree(code, ElseBranch(c, st2).value, goals + [Goal(|st4.code|, |st2.code| + 3)])
    ensures Agree(code, st2, goals + [Goal(|st4.code|, |st2.code| + 3)])
    ensures Agree(code, st1, goals + [Goal(|st4.code|, |st2.code| + 3)])
    ensures |goals| == |st.frames| ==> Agree(code, st, goals)
  {
    hide Agree, ChainsOk, Opened, Closed, Else, ElseBranch;
    ExtendsElim(st1, st2, lo);
    ExtendsElim(st3, st4, lo);
    CloseGoals(code, st4, st5, goals, lo);
    var end := Goal(|st4.code|, |st4.code|);
    BackElim(code, st3, st4, goals + [end], lo);
    ElseGoals(c, code, st2, goals, end, lo);
    ElseBranchExtends(c, st2, lo);
    var goal := Goal(|st4.code|, |st2.code| + 3);
    BackElim(code, st2, ElseBranch(c, st2).value, goals + [goal], lo);
    BackElim(code, st1, st2, goals + [goal], lo);
    OpenBack(code, st, st1, goals, goal, lo);
  }

  // ----- sequences -----

  lemma OpenedOk(st: State, st': State, lo: nat)
    requires ChainsOk(st, lo) && Opened(st, st', lo)
    ensures ChainsOk(st', lo) && |st'.frames| == |st.frames| + 1 && |st.code| <= |st'.code|
  {
    OpenSlots(st, st', lo);
  }

  /** The chain invariant after every compile step, and the way back for completions. */
  lemma {:induction false} CompileExtends(c: Context, st: State, code: Code, lo: nat)
    requires OptionsOk(c.options) && ChainsOk(st, lo) && Compile(c, st, code).Ok?
    ensures Extends(st, Compile(c, st, code).value, lo)
    decreases code, 1
  {
    hide Extends, Agree, ChainsOk, Opened, Closed, Else, ExitBlock, EnterIf, EnterBlock, EnterLoop, CompileOp;
    match code
    case Done => ExtendsSame(st, st, lo);
    case Plain(op, next) =>
      OpExtends(c, st, op, lo);
      CompileNext(c, st, CompileOp(c, st, op).value, next, lo);
    case Block(rt, body, next) =>
      EnterOpens(c, st, rt, lo);
      var st1 := EnterBlock(c, st, rt).value;
      CompileBody(c, st, st1, body, lo);
      CompileNext(c, st, ExitBlock(c, Compile(c, st1, body).value).value, next, lo);
    case Loop(rt, body, next) =>
      EnterOpens(c, st, rt, lo);
      var st1 := EnterLoop(c, st, rt).value;
      CompileBody(c, st, st1, body, lo);
      CompileNext(c, st, ExitBlock(c, Compile(c, st1, body).value).value, next, lo);
    case If(rt, thn, next) =>
      EnterIfOpens(c, st, rt, lo);
      var st1 := EnterIf(c, st, rt).value;
      CompileBody(c, st, st1, thn, lo);
      CompileNext(c, st, ExitBlock(c, Compile(c, st1, thn).value).value, next, lo);
    case IfElse(rt, thn, els, next) =>
      EnterIfOpens(c, st, rt, lo);
      var st1 := EnterIf(c, st, rt).value;
      CompileArms(c, st, st1, code, thn, els, lo);
      var st3 := Else(c, Compile(c, st1, thn).value).value;
      CompileNext(c, st, ExitBlock(c, Compile(c, st3, els).value).value, next, lo);
  }

  lemma {:induction false} CompileNext(c: Context, st: State, st1: State, next: Code, lo: nat)
    requires OptionsOk(c.options) && Extends(st, st1, lo) && Compile(c, st1, next).Ok?
    ensures Extends(st, Compile(c, st1, next).value, lo)
    decreases next, 2
  {
    hide Extends, Compile, Agree, ChainsOk;
    ExtendsElim(st, st1, lo);
    CompileExtends(c, st1, next, lo);
    ExtendsTrans(st, st1, Compile(c, st1, next).value, lo);
  }

  lemma {:induction false} CompileBody(c: Context, st: State, st1: State, body: Code, lo: nat)
    requires OptionsOk(c.options) && ChainsOk(st, lo) && Opened(st, st1, lo) && Compile(c, st1, body).Ok?
    requires ExitBlock(c, Compile(c, st1, body).value).Ok?
    ensures Extends(st1, Compile(c, st1, body).value, lo)
    ensures Closed(Compile(c, st1, body).value, ExitBlock(c, Compile(c, st1, body).value).value)
    ensures Extends(st, ExitBlock(c, Compile(c, st1, body).value).value, lo)
    decreases body, 2
  {
    hide Extends, Compile, Agree, ChainsOk, Opened, Closed, ExitBlock;
    OpenedOk(st, st1, lo);
    OpenedNonempty(st, lo);
    CompileExtends(c, st1, body, lo);
    var st2 := Compile(c, st1, body).value;
    ExtendsElim(st1, st2, lo);
    ExitCloses(c, st2, lo);
    Bracket(st, st1, st2, ExitBlock(c, st2).value, lo);
  }

  lemma OpenedNonempty(st: State, lo: nat)
    requires ChainsOk(st, lo)
    ensures st.frames != []
  {
  }

  lemma {:induction false} CompileArms(
    c: Context, st: State, st1: State, whole: Code, thn: Code, els: Code, lo: nat)
    requires whole.IfElse? && whole.thn == thn && whole.els == els
    requires OptionsOk(c.options) && ChainsOk(st, lo) && Opened(st, st1, lo) && Compile(c, st1, thn).Ok?
    requires Else(c, Compile(c, st1, thn).value).Ok?
    requires Compile(c, Else(c, Compile(c, st1, thn).value).value, els).Ok?
    requires ExitBlock(c, Compile(c, Else(c, Compile(c, st1, thn).value).value, els).value).Ok?
    ensures var st2 := Compile(c, st1, thn).value;
            var st3 := Else(c, st2).value;
            var st4 := Compile(c, st3, els).value;
            && Extends(st1, st2, lo) && ChainsOk(st3, lo) && Extends(st3, st4, lo)
            && Closed(st4, ExitBlock(c, st4).value)
            && Extends(st, ExitBlock(c, st4).value, lo)
    decreases whole, 0
  {
    hide Extends, Compile, Agree, ChainsOk, Opened, Closed, ExitBlock, Else;
    OpenedOk(st, st1, lo);
    OpenedNonempty(st, lo);
    CompileExtends(c, st1, thn, lo);
    var st2 := Compile(c, st1, thn).value;
    ExtendsElim(st1, st2, lo);
    ElseExtendsCode(c, st2, lo);
    var st3 := Else(c, st2).value;
    CompileExtends(c, st3, els, lo);
    var st4 := Compile(c, st3, els).value;
    ExtendsElim(st3, st4, lo);
    ExitCloses(c, st4, lo);
    BracketElse(c, st, st1, st2, st3, st4, ExitBlock(c, st4).value, lo);
  }
}
