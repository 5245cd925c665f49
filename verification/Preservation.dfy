/** The compiler preserves meaning: running the finished code does what the structured semantics of
    the body says, branch by branch and call by call. */
module Preservation {
  import opened Values
  import opened Label
  import opened Ir
  import opened Wasm
  import opened Text
  import opened Chains
  import opened Frames
  import opened Extension
  import opened Typing
  import opened Locals
  import opened Machine
  import opened Simulation

  /** From `m`, the machine does what `o` says: `st` is the compile-time state the sequence started
      in, `st'` the one it ended in. Running out of fuel means still running after that many steps. */
  ghost predicate Sims(
    x: Site, st: State, st': State, goals: seq<Goal>, outer: seq<Value>, m: Mach, fuel: nat, o: Outcome)
  {
    match o
    case Normal(c) =>
      Typed(x, st', outer, c) && exists n :: Follow(x.s, x.code, x.points, m, n) == Next(MachOf(x, st', outer, c))
    case Branch(l, c) =>
      && BranchReady(x, st, outer, l, c) && |goals| == |st.frames| && HeaderLength(x.header) <= x.Fp()
      && exists n :: n >= 1 && Follow(x.s, x.code, x.points, m, n) == BranchStep(x, st, goals, outer, l, c)
    case Returned(c) =>
      && Carries(c, x.f.sig.result) && HeaderLength(x.header) <= x.Fp()
      && exists n :: n >= 1 && Follow(x.s, x.code, x.points, m, n)
                     == ReturnStep(x, Flat(Top(c.stack, ResultCount(x.f.sig.result))), c.trace)
    case Trap(r, t) => exists n :: Follow(x.s, x.code, x.points, m, n) == Trapped(r, t)
    case Timeout(t) => exists n :: n >= fuel && StillRunning(Follow(x.s, x.code, x.points, m, n), t)
    case Stuck => false
  }

  predicate StillRunning(r: Step, trace: seq<HostCall>) { r.Next? && r.m.trace == trace }

  /** The machine is at a program point, with as many operand words as the compiler counted there. */
  predicate Located(s: Store, points: PointMap, m: Mach) {
    && m.calls != []
    && var a := Current(m);
       && Runs(s, a) && m.module_ == a.module_ && m.fp == a.fp && a.Base() <= |m.live|
       && (m.pc, |m.live| - a.Base()) in points(a.module_, a.index)
  }

  /** Like `Machine.Run`, but `Unsafe` on leaving the program points. */
  function Follow(s: Store, code: seq<Word>, points: PointMap, m: Mach, n: nat): Step
    decreases n
  {
    if n == 0 then Next(m)
    else if !Located(s, points, m) then Unsafe
    else
      var r := Advance(s, code, m);
      if r.Next? then Follow(s, code, points, r.m, n - 1) else r
  }

  lemma {:induction false} FollowSplit(s: Store, code: seq<Word>, points: PointMap, m: Mach, a: nat, b: nat)
    ensures Follow(s, code, points, m, a + b) ==
            (var r := Follow(s, code, points, m, a); if r.Next? then Follow(s, code, points, r.m, b) else r)
    decreases a
  {
    hide Advance, Located;
    if a > 0 && Located(s, points, m) {
      var r := Advance(s, code, m);
      if r.Next? { FollowSplit(s, code, points, r.m, a - 1, b); }
    }
  }

  lemma FollowOne(x: Site, m: Mach)
    requires Located(x.s, x.points, m)
    ensures Follow(x.s, x.code, x.points, m, 1) == Advance(x.s, x.code, m)
  {
    hide Advance;
    var r := Advance(x.s, x.code, m);
    if r.Next? { assert Follow(x.s, x.code, x.points, r.m, 0) == r; }
  }

  /** The compile-time state `st` is at a program point. */
  predicate Marked(x: Site, st: State) { (|st.code|, Height(st.values)) in x.Here() }

  /** At a program point the stack pointer is where the compiler expects it. */
  lemma MarkedMach(x: Site, st: State, outer: seq<Value>, c: Config)
    requires SiteOk(x) && Typed(x, st, outer, c) && Marked(x, st)
    ensures LocalsOk(x, c.locals) && Located(x.s, x.points, MachOf(x, st, outer, c))
  {
    hide FrameWords, Height, Flat, StackOk, Live;
    MachCalls(x, |st.code|, c.locals, outer + c.stack, c.trace);
    FlatLen(outer + c.stack);
    HeightKnowns(TypesOf(outer + c.stack));
  }

  // ----- fetching branches -----

  lemma FetchJump(code: seq<Word>, pc: nat, opcode: U8)
    requires opcode == IF || opcode == BR || opcode == BR_IF
    requires At(code, pc, [Imm8(opcode, 0)]) && SlotIn(code, pc + 1)
    ensures var slot := Slot(code, pc + 1);
            Decode(code, pc) == Decoded.Instr(
              if opcode == IF then Instr.If(slot) else if opcode == BR then Instr.Br(slot) else Instr.BrIf(slot),
                  pc + 3)
  {
    hide Slot;
    assert code[pc] == [Imm8(opcode, 0)][0];
  }

  /** What the finished code holds for a one-slot branch: the opcode where the instruction starts
      and the slot after it. */
  lemma SlotFetched(
    x: Site, st: State, l: nat, opcode: U8, goals: seq<Goal>, lo: nat)
    requires SiteOk(x) && ChainsOk(st, lo)
    requires Emit(ContextOf(x), st, [Imm8(opcode, 0)]).Ok?
    requires WriteLabelTarget(ContextOf(x), Emit(ContextOf(x), st, [Imm8(opcode, 0)]).value, l).Ok?
    requires var st1 := Emit(ContextOf(x), st, [Imm8(opcode, 0)]).value;
             Agree(x.code, WriteLabelTarget(ContextOf(x), st1, l).value.0, goals)
    ensures At(x.code, |st.code|, [Imm8(opcode, 0)]) && SlotIn(x.code, |st.code| + 1)
    ensures l < |st.frames| == |goals|
    ensures SlotFor(ContextOf(x), st, l, goals, |st.code| + 1, Slot(x.code, |st.code| + 1))
  {
    SiteHeader(x);
    hide Slot, Agree, ChainsOk, SlotFor, WriteLabelTarget, SiteOk, Extends, Imm8;
    var cx := ContextOf(x);
    var ws := [Imm8(opcode, 0)];
    var st1 := Emit(cx, st, ws).value;
    EmitSame(cx, st, ws);
    EmitExtends(cx, st, ws, lo);
    LabelExtends(cx, st1, l, lo);
    BackElim(x.code, st1, WriteLabelTarget(cx, st1, l).value.0, goals, lo);
    EmittedAt(cx, x.code, st, ws, goals, lo);
    LabelInRange(cx, st1, l);
    LoopStart(cx, st, ws, l, lo);
    ExtendsElim(st, st1, lo);
    LabelMeaning(cx, x.code, st1, l, goals, lo);
    SlotForSame(cx, st, st1, l, goals, |st.code| + 1, Slot(x.code, |st.code| + 1));
  }

  /** A loop starts before the words that are emitted now. */
  lemma LoopStart(c: Context, st: State, ws: seq<Word>, l: nat, lo: nat)
    requires ChainsOk(st, lo) && Emit(c, st, ws).Ok? && ws != [] && l < |st.frames|
    ensures PastTarget(Emit(c, st, ws).value, l)
  {
    hide ChainOk, Chain;
    assert FrameOk(st, |st.frames| - 1 - l, lo);
  }

  lemma LabelInRange(c: Context, st: State, l: nat)
    requires WriteLabelTarget(c, st, l).Ok?
    ensures l < |st.frames|
  {
  }

  lemma SlotForSame(c: Context, st: State, st1: State, l: nat, goals: seq<Goal>, pc: int, slot: U32)
    requires l < |st.frames| == |goals| && st1 == st.(code := st1.code)
    requires SlotFor(c, st1, l, goals, pc, slot)
    ensures SlotFor(c, st, l, goals, pc, slot)
  {
    hide Jump, Depth, Label.Arity, Height;
  }

  /** Popping looks at the operands and the innermost frame only. */
  lemma PopResultTransfer(st: State, st': State, r: ResultType)
    requires st'.values == st.values && |st'.frames| == |st.frames| && st.frames != []
    requires Innermost(st').height == Innermost(st).height && Innermost(st').unreachable == Innermost(st).unreachable
    ensures PopResult(st', r).Ok? <==> PopResult(st, r).Ok?
    ensures PopResult(st, r).Ok? ==> PopResult(st', r).value == st'.(values := PopResult(st, r).value.values)
  {
  }

  // ----- br and br_if -----

  /** Fetching and taking a `br`. */
  lemma BrPrepared(
    x: Site, st: State, st': State, l: nat, outer: seq<Value>, c: Config, goals: seq<Goal>, lo: nat)
    requires SiteOk(x) && ChainsOk(st, lo) && Typed(x, st, outer, c)
    requires CompileBr(ContextOf(x), st, l) == Result.Ok(st') && Agree(x.code, st', goals)
    ensures l < |st.frames| == |goals| && SlotIn(x.code, |st.code| + 1)
    ensures SlotFor(ContextOf(x), st, l, goals, |st.code| + 1, Slot(x.code, |st.code| + 1))
    ensures PopResult(st, LabelType(ContextOf(x), st, |st.frames| - 1 - l)).Ok?
    ensures Decode(x.code, |st.code|) == Decoded.Instr(Instr.Br(Slot(x.code, |st.code| + 1)), |st.code| + 3)
  {
    hide Slot, Agree, ChainOk, Chain, ChainsOk, Jump, Depth, Label.Arity, WriteLabelTarget, Flat, FrameWords, SlotFor;
    hide MarkUnreachable, PopResult, Typed, StackOk, Live, Emit, Decode, At;
    var cx := ContextOf(x);
    var ws := [Imm8(BR, 0)];
    var st1 := Emit(cx, st, ws).value;
    var (st2, r) := WriteLabelTarget(cx, st1, l).value;
    SiteHeader(x);
    TypedStack(x, st, outer, c);
    EmitOk(cx, st, ws);
    EmitSame(cx, st, ws);
    LabelOk(cx, st1, l);
    EmitExtends(cx, st, ws, lo);
    ExtendsElim(st, st1, lo);
    LabelExtends(cx, st1, l, lo);
    ExtendsElim(st1, st2, lo);
    PopMarkSame(st2, r);
    ChainsLength(st2, lo);
    AppendBack(x.code, st2, st', goals, lo);
    SlotFetched(x, st, l, BR, goals, lo);
    PopResultTransfer(st, st2, r);
    LabelTypeSame(cx, st, st1, l);
    FetchJump(x.code, |st.code|, BR);
  }

  lemma BrSims(
    x: Site, st: State, st': State, l: nat, outer: seq<Value>, c: Config, goals: seq<Goal>, lo: nat, fuel: nat)
    requires SiteOk(x) && ChainsOk(st, lo) && Typed(x, st, outer, c)
    requires CompileBr(ContextOf(x), st, l) == Result.Ok(st') && Agree(x.code, st', goals)
    requires Marked(x, st)
    ensures Sims(x, st, st', goals, outer, MachOf(x, st, outer, c), fuel, Branch(l, c))
  {
    hide Slot, Agree, ChainsOk, Jump, Depth, Label.Arity, Flat, FrameWords, SlotFor, PopResult, StepBranch, BranchStep;
    hide Typed, CompileBr, Decode, LabelType, BranchReady, SiteOk;
    MarkedMach(x, st, outer, c);
    BrPrepared(x, st, st', l, outer, c, goals, lo);
    BranchSim(x, st, outer, c, l, goals, |st.code|, 1, Slot(x.code, |st.code| + 1));
    var m := MachOf(x, st, outer, c);
    SiteHeader(x);
    BranchNotPaused(x, st, goals, outer, l, c);
    BrWord(x, m, Slot(x.code, |st.code| + 1));
    assert Follow(x.s, x.code, x.points, m, 1) == BranchStep(x, st, goals, outer, l, c);
  }

  lemma BrWord(x: Site, m: Mach, slot: U32)
    requires m.pc >= 0 && Decode(x.code, m.pc) == Decoded.Instr(Instr.Br(slot), m.pc + 3)
    requires !StepBranch(x.s, m, 1, slot).Paused? && Located(x.s, x.points, m)
    ensures Follow(x.s, x.code, x.points, m, 1) == StepBranch(x.s, m, 1, slot)
  {
    hide Decode, StepBranch, Located;
    FollowOne(x, m);
  }

  lemma BranchNotPaused(x: Site, st: State, goals: seq<Goal>, outer: seq<Value>, l: nat, c: Config)
    requires BranchReady(x, st, outer, l, c) && |goals| == |st.frames| && HeaderLength(x.header) <= x.Fp()
    ensures !BranchStep(x, st, goals, outer, l, c).Paused?
  {
  }

  lemma TypedStack(x: Site, st: State, outer: seq<Value>, c: Config)
    requires Typed(x, st, outer, c)
    ensures StackOk(st) && Live(st) && LocalsOk(x, c.locals) && st.frames != []
  {
  }

  lemma SiteHeader(x: Site)
    requires SiteOk(x)
    ensures HeaderLength(x.header) <= x.Fp() && OptionsOk(x.options)
  {
  }

  lemma PopMarkSame(st: State, r: ResultType)
    requires PopResult(st, r).Ok?
    ensures var st' := MarkUnreachable(PopResult(st, r).value);
            SameFrames(st, st') && st.code <= st'.code && |st'.code| == |st.code|
  {
    MarkUnreachableSame(PopResult(st, r).value);
  }

  lemma LabelTypeSame(c: Context, st: State, st1: State, l: nat)
    requires l < |st.frames| && st1 == st.(code := st1.code)
    ensures LabelType(c, st1, |st.frames| - 1 - l) == LabelType(c, st, |st.frames| - 1 - l)
  {
  }

  /** Taking a branch depends on the shape of the frames only. */
  lemma BranchShape(x: Site, st: State, st1: State, goals: seq<Goal>, outer: seq<Value>, l: nat, c: Config)
    requires SameShape(st, st1)
    ensures BranchReady(x, st, outer, l, c) <==> BranchReady(x, st1, outer, l, c)
    ensures BranchReady(x, st, outer, l, c) && |goals| == |st.frames| && HeaderLength(x.header) <= x.Fp() ==>
            BranchStep(x, st, goals, outer, l, c) == BranchStep(x, st1, goals, outer, l, c)
  {
    hide Flat, FrameWords, ReturnStep, Carries;
    if l < |st.frames| {
      var idx := |st.frames| - 1 - l;
      assert st.frames[idx].kind == st1.frames[idx].kind;
    }
  }

  /** The part of `br_if` after its condition is popped. */
  lemma BrIfSlot(
    x: Site, st1: State, st2: State, st3: State, st': State, l: nat, r: ResultType, outer: seq<Value>, c: Config,
    goals: seq<Goal>, lo: nat)
    requires SiteOk(x) && ChainsOk(st1, lo) && Typed(x, st1, outer, c)
    requires Emit(ContextOf(x), st1, [Imm8(BR_IF, 0)]) == Result.Ok(st2)
    requires WriteLabelTarget(ContextOf(x), st2, l) == Result.Ok((st3, r))
    requires PopResult(st3, r).Ok? && PushResult(ContextOf(x), PopResult(st3, r).value, r) == Result.Ok(st')
    requires Agree(x.code, st', goals) && st'.highwater <= x.f.usage
    ensures l < |st1.frames| == |goals| && SlotIn(x.code, |st1.code| + 1)
    ensures SlotFor(ContextOf(x), st1, l, goals, |st1.code| + 1, Slot(x.code, |st1.code| + 1))
    ensures r == LabelType(ContextOf(x), st1, |st1.frames| - 1 - l) && PopResult(st1, r).Ok?
    ensures At(x.code, |st1.code|, [Imm8(BR_IF, 0)])
    ensures Typed(x, st', outer, c) && |st'.code| == |st1.code| + 3
  {
    hide Slot, Agree, ChainOk, Chain, ChainsOk, Jump, Depth, Label.Arity, WriteLabelTarget, Flat, FrameWords, SlotFor;
    hide PopResult, PushResult, StackOk, Live, Emit, Height, SiteOk, At;
    var cx := ContextOf(x);
    var ws := [Imm8(BR_IF, 0)];
    SiteHeader(x);
    EmitOk(cx, st1, ws);
    EmitSame(cx, st1, ws);
    LabelOk(cx, st2, l);
    EmitExtends(cx, st1, ws, lo);
    ExtendsElim(st1, st2, lo);
    LabelExtends(cx, st2, l, lo);
    ExtendsElim(st2, st3, lo);
    LabelInRange(cx, st2, l);
    LabelTypeSame(cx, st1, st2, l);
    PopResultTransfer(st1, st3, r);
    LiveSame(st1, st2);
    LiveSame(st2, st3);
    BrIfBack(x, st3, st', r, outer, c);
    ChainsLength(st3, lo);
    AppendBack(x.code, st3, st', goals, lo);
    SlotFetched(x, st1, l, BR_IF, goals, lo);
  }

  /** The part of `br_if` that does not depend on the condition. */
  lemma BrIfPrepared(
    x: Site, st: State, st': State, l: nat, outer: seq<Value>, c: Config, goals: seq<Goal>, lo: nat)
    requires SiteOk(x) && ChainsOk(st, lo) && Typed(x, st, outer, c)
    requires CompileBrIf(ContextOf(x), st, l) == Result.Ok(st') && Agree(x.code, st', goals)
    requires st'.highwater <= x.f.usage
    ensures HasI32(c) && c.stack == Pop(c).stack + [Last(c)]
    ensures var st1 := PopType(st, ValType.I32).value;
            && PopType(st, ValType.I32).Ok? && SameCode(st, st1) && Typed(x, st1, outer, Pop(c))
            && l < |st.frames| == |goals| && SlotIn(x.code, |st.code| + 1)
            && SlotFor(ContextOf(x), st1, l, goals, |st.code| + 1, Slot(x.code, |st.code| + 1))
            && PopResult(st1, LabelType(ContextOf(x), st1, |st.frames| - 1 - l)).Ok?
            && Decode(x.code, |st.code|) == Decoded.Instr(Instr.BrIf(Slot(x.code, |st.code| + 1)), |st.code| + 3)
            && Typed(x, st', outer, Pop(c)) && |st'.code| == |st.code| + 3
  {
    hide Slot, Agree, ChainsOk, WriteLabelTarget, Flat, FrameWords, SlotFor, LabelType, Typed, SiteOk, PopType, At;
    hide PopResult, PushResult, Emit, Decode;
    var cx := ContextOf(x);
    var st1 := PopType(st, ValType.I32).value;
    TablePop(x, st, outer, c, lo);
    var st2 := Emit(cx, st1, [Imm8(BR_IF, 0)]).value;
    var (st3, r) := WriteLabelTarget(cx, st2, l).value;
    BrIfSlot(x, st1, st2, st3, st', l, r, outer, Pop(c), goals, lo);
    FetchJump(x.code, |st.code|, BR_IF);
  }

  lemma LiveSame(st: State, st': State)
    requires Live(st) && st'.values == st.values && |st'.frames| == |st.frames|
    requires forall i :: 0 <= i < |st.frames| ==> st'.frames[i].unreachable == st.frames[i].unreachable
    ensures Live(st')
  {
  }

  /** `br_if` pops the label's operands and pushes them back. */
  lemma BrIfBack(x: Site, st3: State, st': State, r: ResultType, outer: seq<Value>, c: Config)
    requires StackOk(st3) && Live(st3) && LocalsOk(x, c.locals)
    requires st3.values == Knowns(TypesOf(outer + c.stack)) && |outer| == Innermost(st3).height
    requires PopResult(st3, r).Ok? && PushResult(ContextOf(x), PopResult(st3, r).value, r) == Result.Ok(st')
    requires st'.highwater <= x.f.usage
    ensures Typed(x, st', outer, c) && st'.frames == st3.frames && st'.code == st3.code && SameFrames(st3, st')
  {
    hide Height;
    PopResultLive(st3, r);
    PushResultOk(ContextOf(x), PopResult(st3, r).value, r);
    assert st'.values == st3.values;
  }

  lemma BrIfSims(
    x: Site, st: State, st': State, l: nat, outer: seq<Value>, c: Config, goals: seq<Goal>, lo: nat, fuel: nat)
    requires SiteOk(x) && ChainsOk(st, lo) && Typed(x, st, outer, c)
    requires CompileBrIf(ContextOf(x), st, l) == Result.Ok(st') && Agree(x.code, st', goals)
    requires st'.highwater <= x.f.usage
    requires Marked(x, st)
    ensures Sims(x, st, st', goals, outer, MachOf(x, st, outer, c), fuel, ExecOp(Op.BrIf(l), c))
  {
    hide Slot, Agree, ChainOk, Chain, ChainsOk, Jump, Depth, Label.Arity, Flat, FrameWords, SlotFor, PopType;
    hide CompileBrIf;
    hide PopResult, StepBranch, BranchStep, BranchReady, Typed, Emit, StackOk, SiteOk, LabelType;
    MarkedMach(x, st, outer, c);
    BrIfPrepared(x, st, st', l, outer, c, goals, lo);
    TypedStack(x, st, outer, c);
    var m := MachOf(x, st, outer, c);
    var c1 := Pop(c);
    var st1 := PopType(st, ValType.I32).value;
    assert outer + c.stack == (outer + c1.stack) + [Last(c)];
    LastWord(x, |st.code|, c.locals, outer + c1.stack, Last(c), c.trace);
    FollowOne(x, m);
    if Last(c).word != 0 {
      BranchSim(x, st1, outer, c1, l, goals, |st.code|, 1, Slot(x.code, |st.code| + 1));
      SiteHeader(x);
      BranchShape(x, st, st1, goals, outer, l, c1);
      BranchNotPaused(x, st1, goals, outer, l, c1);
      assert Follow(x.s, x.code, x.points, m, 1) == BranchStep(x, st, goals, outer, l, c1);
    } else {
      assert Follow(x.s, x.code, x.points, m, 1) == Next(MachOf(x, st', outer, c1));
    }
  }

  // ----- unreachable and return -----

  lemma UnreachableSims(
    x: Site, st: State, st': State, outer: seq<Value>, c: Config, goals: seq<Goal>, lo: nat, fuel: nat)
    requires SiteOk(x) && ChainsOk(st, lo) && Typed(x, st, outer, c)
    requires CompileOp(ContextOf(x), st, Op.Unreachable) == Result.Ok(st') && Agree(x.code, st', goals)
    requires Marked(x, st)
    ensures Sims(x, st, st', goals, outer, MachOf(x, st, outer, c), fuel, ExecOp(Op.Unreachable, c))
  {
    hide Slot, Agree, ChainOk, Chain, ChainsOk, Flat, FrameWords, Emit, StackOk, Live, MarkUnreachable, SiteOk;
    MarkedMach(x, st, outer, c);
    var cx := ContextOf(x);
    var ws := [Imm8(UNREACHABLE, 0)];
    var st1 := Emit(cx, st, ws).value;
    SiteHeader(x);
    EmitExtends(cx, st, ws, lo);
    ExtendsElim(st, st1, lo);
    MarkUnreachableSame(st1);
    ChainsLength(st1, lo);
    AppendBack(x.code, st1, st', goals, lo);
    var m := MachOf(x, st, outer, c);
    assert Emit(cx, st, Encode(Instr.Unreachable)) == Result.Ok(st1);
    Fetch(x, st, st1, Instr.Unreachable, goals, lo, m);
    FollowOne(x, m);
    assert Follow(x.s, x.code, x.points, m, 1) == Trapped(TrapReason.Unreachable, c.trace);
  }

  lemma ChainsLength(st: State, lo: nat)
    requires ChainsOk(st, lo)
    ensures |st.code| < 0x8000_0000 && st.frames != []
  {
  }

  lemma ReturnSims(
    x: Site, st: State, st': State, outer: seq<Value>, c: Config, goals: seq<Goal>, lo: nat, fuel: nat)
    requires SiteOk(x) && ChainsOk(st, lo) && Typed(x, st, outer, c)
    requires CompileReturn(ContextOf(x), st) == Result.Ok(st') && Agree(x.code, st', goals)
    requires Marked(x, st)
    ensures Sims(x, st, st', goals, outer, MachOf(x, st, outer, c), fuel, Returned(c))
  {
    hide Slot, Agree, ChainOk, Chain, ChainsOk, Flat, FrameWords, Emit, StackOk, Live, MarkUnreachable, SiteOk, Carries;
    hide PopResult, StepReturn, ReturnStep, Height;
    MarkedMach(x, st, outer, c);
    var cx := ContextOf(x);
    var r := x.f.sig.result;
    var st1 := PopResult(st, r).value;
    var i := Instr.Return(ResultWords(r));
    var st2 := Emit(cx, st1, Encode(i)).value;
    SiteHeader(x);
    CarriedTop(x, st, outer, c, r);
    PopResultLive(st, r);
    SameChains(st, st1, lo);
    EmitExtends(cx, st1, Encode(i), lo);
    ExtendsElim(st1, st2, lo);
    MarkUnreachableSame(st2);
    ChainsLength(st2, lo);
    AppendBack(x.code, st2, st', goals, lo);
    var m := MachOf(x, st, outer, c);
    Fetch(x, st1, st2, i, goals, lo, m);
    ReturnRuns(x, m, outer, c, |st.code|);
  }

  /** The machine returns from wherever the function's results are on top. */
  lemma ReturnRuns(x: Site, m: Mach, outer: seq<Value>, c: Config, pc: int)
    requires SiteOk(x) && LocalsOk(x, c.locals) && Carries(c, x.f.sig.result)
    requires m == MachAt(x, pc, c.locals, outer + c.stack, c.trace)
    requires StepOnce(x.s, x.code, m) == StepReturn(x.s, m, ResultWords(x.f.sig.result))
    requires Located(x.s, x.points, m)
    ensures HeaderLength(x.header) <= x.Fp()
    ensures Follow(x.s, x.code, x.points, m, 1)
        == ReturnStep(x, Flat(Top(c.stack, ResultCount(x.f.sig.result))), c.trace)
  {
    hide Flat, FrameWords, StepReturn, StepOnce;
    SiteHeader(x);
    var n := ResultCount(x.f.sig.result);
    var keep := c.stack[..|c.stack| - n];
    assert outer + c.stack == (outer + keep) + Top(c.stack, n);
    ReturnAt(x, pc, c.locals, outer + keep, Top(c.stack, n), c.trace);
    FollowOne(x, m);
  }

  // ----- br_table -----

  lemma {:induction false} SlotsAtIndex(code: seq<Word>, a: nat, n: nat, k: nat)
    requires a + 2 * n <= |code| && k < n
    ensures SlotsAt(code, a, n)[k] == Slot(code, a + 2 * k)
  {
    hide Slot;
    if k < n - 1 { SlotsAtIndex(code, a, n - 1, k); }
  }

  lemma FetchTable(code: seq<Word>, pc: nat, n: Word)
    requires At(code, pc, Imm8Or16(BR_TABLE, n)) && pc + |Imm8Or16(BR_TABLE, n)| + 2 * n + 2 <= |code|
    ensures var a := pc + |Imm8Or16(BR_TABLE, n)|;
            Decode(code, pc) == Decoded.Instr(Instr.BrTable(SlotsAt(code, a, n + 1)), a + 2 * n + 2)
  {
    hide SlotsAt;
    assert code[pc] == Imm8Or16(BR_TABLE, n)[0];
    if n >= 0xFF { assert code[pc + 1] == Imm8Or16(BR_TABLE, n)[1]; }
  }

  /** The operand types seen by all slots of a table are those at its start. */
  predicate SameTypes(st: State, st1: State) {
    && st1.values == st.values && |st1.frames| == |st.frames|
    && forall i :: 0 <= i < |st.frames| ==>
         var (f, g) := (st.frames[i], st1.frames[i]);
         f.kind == g.kind && f.out == g.out && f.height == g.height && (f.kind.Loop? ==> f.target == g.target)
         && f.unreachable == g.unreachable
  }

  lemma SlotForTypes(c: Context, st: State, st1: State, l: nat, goals: seq<Goal>, pc: int, slot: U32)
    requires l < |st.frames| == |goals| && SameTypes(st, st1)
    ensures SlotFor(c, st1, l, goals, pc, slot) ==> SlotFor(c, st, l, goals, pc, slot)
    ensures LabelType(c, st1, |st.frames| - 1 - l) == LabelType(c, st, |st.frames| - 1 - l)
  {
    hide Jump, Depth, Label.Arity, Height;
    var idx := |st.frames| - 1 - l;
    assert st.frames[idx].kind == st1.frames[idx].kind;
  }

  lemma SameTypesTrans(st: State, st1: State, st2: State)
    requires SameTypes(st, st1) && SameTypes(st1, st2)
    ensures SameTypes(st, st2)
  {
  }

  lemma LabelSameTypes(c: Context, st: State, l: nat)
    requires StackOk(st) && WriteLabelTarget(c, st, l).Ok?
    ensures SameTypes(st, WriteLabelTarget(c, st, l).value.0)
  {
    hide WriteLabelTarget, StackOk;
    LabelOk(c, st, l);
  }

  predicate LoopsPast(st: State) {
    forall i :: 0 <= i < |st.frames| && st.frames[i].kind.Loop? ==> st.frames[i].target < |st.code|
  }

  /** The slot at `pc` is one for label `l`, whose branches carry `r`. */
  predicate Entry(c: Context, code: seq<Word>, st: State, l: nat, goals: seq<Goal>, pc: int, r: ResultType) {
    && l < |st.frames| == |goals| && SlotIn(code, pc)
    && LabelType(c, st, |st.frames| - 1 - l) == r
    && SlotFor(c, st, l, goals, pc, Slot(code, pc))
  }

  lemma EntryTypes(c: Context, code: seq<Word>, st: State, st1: State, l: nat, goals: seq<Goal>, pc: int, r: ResultType)
    requires SameTypes(st, st1) && Entry(c, code, st1, l, goals, pc, r)
    ensures Entry(c, code, st, l, goals, pc, r)
  {
    hide Slot, SlotFor, LabelType;
    SlotForTypes(c, st, st1, l, goals, pc, Slot(code, pc));
  }

  /** Every slot of a branch table holds what its label asks for, and all labels carry the same
      operands. */
  lemma {:induction false} TableMeaning(
    c: Context, code: seq<Word>, st: State, ls: seq<nat>, goals: seq<Goal>, lo: nat)
    requires OptionsOk(c.options) && ChainsOk(st, lo) && StackOk(st) && LoopsPast(st)
    requires TableBranches(c, st, ls).Ok? && Agree(code, TableBranches(c, st, ls).value, goals)
    ensures var st' := TableBranches(c, st, ls).value;
            && SameTypes(st, st') && ChainsOk(st', lo) && StackOk(st') && LoopsPast(st')
            && |goals| == |st.frames| && |st'.code| == |st.code| + 2 * |ls| <= |code|
            && (ls != [] ==> st'.table.Some?) && (st.table.Some? ==> st'.table == st.table)
            && forall k :: 0 <= k < |ls| ==> Entry(c, code, st, ls[k], goals, |st.code| + 2 * k, st'.table.value)
    decreases |ls|
  {
    hide Slot, Agree, ChainOk, Chain, ChainsOk, Jump, Depth, Label.Arity, SlotFor, WriteLabelTarget, StackOk, LabelType;
    if ls == [] {
      AgreeSize(code, st, goals);
    } else {
      var (st1, r) := WriteLabelTarget(c, st, ls[0]).value;
      var st2 := CheckTable(st1, r).value;
      LabelExtends(c, st, ls[0], lo);
      ExtendsElim(st, st1, lo);
      LabelOk(c, st, ls[0]);
      LabelSameTypes(c, st, ls[0]);
      LabelInRange(c, st, ls[0]);
      TableTable(c, st, ls[0]);
      ExtendsSame(st1, st2, lo);
      ExtendsElim(st1, st2, lo);
      CodeOnlyOk(st1, st2);
      TableExtends(c, st2, ls[1..], lo);
      BackElim(code, st2, TableBranches(c, st2, ls[1..]).value, goals, lo);
      TableMeaning(c, code, st2, ls[1..], goals, lo);
      BackElim(code, st1, st2, goals, lo);
      LabelMeaning(c, code, st, ls[0], goals, lo);
      SameTypesTrans(st, st1, st2);
      SameTypesTrans(st, st2, TableBranches(c, st2, ls[1..]).value);
      TableJoin(c, code, st, st2, ls, r, goals);
    }
  }

  lemma TableJoin(c: Context, code: seq<Word>, st: State, st2: State, ls: seq<nat>, r: ResultType, goals: seq<Goal>)
    requires ls != [] && SameTypes(st, st2) && |st2.code| == |st.code| + 2
    requires Entry(c, code, st, ls[0], goals, |st.code|, r)
    requires forall k :: 0 <= k < |ls[1..]| ==> Entry(c, code, st2, ls[1..][k], goals, |st2.code| + 2 * k, r)
    ensures forall k :: 0 <= k < |ls| ==> Entry(c, code, st, ls[k], goals, |st.code| + 2 * k, r)
  {
    hide Entry;
    forall k | 0 <= k < |ls| ensures Entry(c, code, st, ls[k], goals, |st.code| + 2 * k, r) {
      if k > 0 {
        assert ls[k] == ls[1..][k - 1] && |st2.code| + 2 * (k - 1) == |st.code| + 2 * k;
        EntryTypes(c, code, st, st2, ls[k], goals, |st.code| + 2 * k, r);
      }
    }
  }

  lemma AgreeSize(code: seq<Word>, st: State, goals: seq<Goal>)
    requires Agree(code, st, goals)
    ensures |goals| == |st.frames| && |st.code| <= |code|
  {
  }

  lemma TableTable(c: Context, st: State, l: nat)
    requires WriteLabelTarget(c, st, l).Ok?
    ensures WriteLabelTarget(c, st, l).value.0.table == st.table
  {
    hide Pack, Above, JumpOffset, Words32;
  }

  function TableLabel(ls: seq<nat>, default: nat, k: nat): nat { if k < |ls| then ls[k] else default }

  function TableStart(st: State, n: Word): nat { |st.code| + |Imm8Or16(BR_TABLE, n)| }

  lemma LoopsPastEmit(c: Context, st: State, ws: seq<Word>, lo: nat)
    requires OptionsOk(c.options) && ChainsOk(st, lo) && Emit(c, st, ws).Ok? && ws != []
    ensures LoopsPast(Emit(c, st, ws).value)
  {
    hide ChainOk, Chain;
    forall i | 0 <= i < |st.frames| && st.frames[i].kind.Loop? ensures st.frames[i].target < |st.code| + |ws| {
      assert FrameOk(st, i, lo);
    }
  }

  /** The slots of a compiled table, default last. */
  lemma TablePrepared(
    x: Site, st1: State, ls: seq<nat>, default: nat, st3: State, st4: State, r: ResultType, goals: seq<Goal>, lo: nat)
    requires SiteOk(x) && ChainsOk(st1, lo) && StackOk(st1) && |ls| <= 0xFFFF
    requires Emit(ContextOf(x), st1, Imm8Or16(BR_TABLE, |ls|)).Ok?
    requires TableBranches(ContextOf(x), Emit(ContextOf(x), st1, Imm8Or16(BR_TABLE, |ls|)).value, ls) == Result.Ok(st3)
    requires WriteLabelTarget(ContextOf(x), st3, default) == Result.Ok((st4, r))
    requires CheckAndClearTable(st4, r).Ok? && Agree(x.code, st4, goals)
    ensures At(x.code, |st1.code|, Imm8Or16(BR_TABLE, |ls|))
    ensures TableStart(st1, |ls|) + 2 * |ls| + 2 <= |x.code| && SameTypes(st1, st4)
    ensures forall k :: 0 <= k <= |ls| ==>
              Entry(ContextOf(x), x.code, st1, TableLabel(ls, default, k), goals, TableStart(st1, |ls|) + 2 * k, r)
  {
    hide Slot, Agree, ChainsOk, WriteLabelTarget, StackOk, TableBranches, Imm8Or16, Emit, Entry, SameTypes;
    hide At, SiteOk, LoopsPast;
    var cx := ContextOf(x);
    var ws := Imm8Or16(BR_TABLE, |ls|);
    var st2 := Emit(cx, st1, ws).value;
    SiteHeader(x);
    HeadWords(|ls|);
    TableHead(cx, st1, ws, lo);
    TableExtends(cx, st2, ls, lo);
    ExtendsElim(st2, st3, lo);
    LabelExtends(cx, st3, default, lo);
    BackElim(x.code, st3, st4, goals, lo);
    AgreeSize(x.code, st4, goals);
    TableMeaning(cx, x.code, st2, ls, goals, lo);
    BackElim(x.code, st2, st3, goals, lo);
    EmittedAt(cx, x.code, st1, ws, goals, lo);
    SameTypesTrans(st1, st2, st3);
    DefaultEntry(cx, x.code, st1, st3, st4, default, r, goals, lo);
    CheckedTable(st3, st4, r);
    forall k | 0 <= k <= |ls|
      ensures Entry(cx, x.code, st1, TableLabel(ls, default, k), goals, TableStart(st1, |ls|) + 2 * k, r)
    {
      if k < |ls| {
        assert Entry(cx, x.code, st2, ls[k], goals, |st2.code| + 2 * k, st3.table.value);
        EntryTypes(cx, x.code, st1, st2, ls[k], goals, |st2.code| + 2 * k, r);
      }
    }
  }

  /** The word or two before the slots. */
  lemma TableHead(c: Context, st1: State, ws: seq<Word>, lo: nat)
    requires OptionsOk(c.options) && ChainsOk(st1, lo) && StackOk(st1) && Emit(c, st1, ws).Ok? && ws != []
    ensures var st2 := Emit(c, st1, ws).value;
            && ChainsOk(st2, lo) && StackOk(st2) && LoopsPast(st2) && SameTypes(st1, st2)
            && |st2.code| == |st1.code| + |ws| && Extends(st1, st2, lo)
  {
    hide ChainsOk, StackOk, Agree, Emit;
    EmitSame(c, st1, ws);
    EmitOk(c, st1, ws);
    EmitExtends(c, st1, ws, lo);
    ExtendsElim(st1, Emit(c, st1, ws).value, lo);
    LoopsPastEmit(c, st1, ws, lo);
  }

  /** The default's slot, after those of the cases. */
  lemma DefaultEntry(
    c: Context, code: seq<Word>, st1: State, st3: State, st4: State, default: nat, r: ResultType,
    goals: seq<Goal>, lo: nat)
    requires OptionsOk(c.options) && ChainsOk(st3, lo) && StackOk(st3) && LoopsPast(st3) && SameTypes(st1, st3)
    requires WriteLabelTarget(c, st3, default) == Result.Ok((st4, r)) && Agree(code, st4, goals)
    ensures SameTypes(st1, st4) && Entry(c, code, st1, default, goals, |st3.code|, r)
    ensures st4.table == st3.table && default < |st3.frames|
  {
    hide Slot, Agree, ChainsOk, WriteLabelTarget, StackOk, Entry, SlotFor, LabelType;
    LabelInRange(c, st3, default);
    LabelSameTypes(c, st3, default);
    SameTypesTrans(st1, st3, st4);
    LabelMeaning(c, code, st3, default, goals, lo);
    LabelOk(c, st3, default);
    TableTable(c, st3, default);
    EntryIntro(c, code, st3, default, goals, |st3.code|, r);
    EntryTypes(c, code, st1, st3, default, goals, |st3.code|, r);
  }

  lemma CheckedTable(st3: State, st4: State, r: ResultType)
    requires CheckAndClearTable(st4, r).Ok? && st4.table == st3.table
    ensures st3.table.Some? ==> st3.table.value == r
  {
  }

  lemma HeadWords(n: Word)
    ensures Imm8Or16(BR_TABLE, n) != []
    ensures |Imm8Or16(BR_TABLE, n)| == if n >= 0xFF then 2 else 1
  {
  }

  lemma EntryIntro(c: Context, code: seq<Word>, st: State, l: nat, goals: seq<Goal>, pc: int, r: ResultType)
    requires l < |st.frames| == |goals| && SlotIn(code, pc)
    requires LabelType(c, st, |st.frames| - 1 - l) == r && SlotFor(c, st, l, goals, pc, Slot(code, pc))
    ensures Entry(c, code, st, l, goals, pc, r)
  {
  }

  /** The handler of `br_table` takes the slot of case `v`, or of the default. */
  lemma TableStep(s: Store, code: seq<Word>, m: Mach, m1: Mach, a: nat, n: Word, v: U32)
    requires 0 <= m.pc && At(code, m.pc, Imm8Or16(BR_TABLE, n)) && a == m.pc + |Imm8Or16(BR_TABLE, n)|
    requires a + 2 * n + 2 <= |code|
    requires CanPop(m, 1) && m.live[|m.live| - 1] == v && m1 == m.(live := Below(m, 1))
    ensures var k := if v < n then v else n;
            SlotIn(code, a + 2 * k) && StepOnce(s, code, m)
                == StepBranch(s, m1, a - m.pc + 2 * k, Slot(code, a + 2 * k))
  {
    hide Slot, StepBranch, CanPop, SlotsAt;
    FetchTable(code, m.pc, n);
    HeadWords(n);
    var k := if v < n then v else n;
    SlotsAtIndex(code, a, n + 1, k);
  }

  lemma BrTableSims(
    x: Site, st: State, st': State, ls: seq<nat>, default: nat, outer: seq<Value>, c: Config, goals: seq<Goal>,
    lo: nat, fuel: nat)
    requires SiteOk(x) && ChainsOk(st, lo) && Typed(x, st, outer, c)
    requires CompileBrTable(ContextOf(x), st, ls, default) == Result.Ok(st') && Agree(x.code, st', goals)
    requires Marked(x, st)
    ensures Sims(x, st, st', goals, outer, MachOf(x, st, outer, c), fuel, ExecOp(Op.BrTable(ls, default), c))
  {
    hide Slot, Agree, ChainOk, Chain, ChainsOk, WriteLabelTarget, StackOk, Live, TableBranches, SlotFor, Imm8Or16, Emit;
    hide Entry, Flat, FrameWords, PopResult, MarkUnreachable, Typed, SiteOk, CheckAndClearTable, PopType, LabelType;
    MarkedMach(x, st, outer, c);
    var cx := ContextOf(x);
    TypedStack(x, st, outer, c);
    var st1 := PopType(st, ValType.I32).value;
    TablePop(x, st, outer, c, lo);
    var c1 := Pop(c);
    var st2 := Emit(cx, st1, Imm8Or16(BR_TABLE, |ls|)).value;
    var st3 := TableBranches(cx, st2, ls).value;
    var (st4, r) := WriteLabelTarget(cx, st3, default).value;
    var st5 := CheckAndClearTable(st4, r).value;
    TableAgree(x, st1, ls, default, st2, st3, st4, st5, r, st', goals, lo);
    TypedStack(x, st1, outer, c1);
    TablePrepared(x, st1, ls, default, st3, st4, r, goals, lo);
    ClearSame(st4, r);
    SameTypesInner(st1, st4);
    PopResultTransfer(st1, st5, r);
    TableTaken(x, st, st1, ls, default, outer, c, goals, r);
    BrTableEnd(x, st, st1, st', ls, default, outer, c, goals, fuel);
  }

  lemma SameTypesInner(st: State, st': State)
    requires SameTypes(st, st') && st.frames != []
    ensures st'.frames != [] && Innermost(st').height == Innermost(st).height
    ensures Innermost(st').unreachable == Innermost(st).unreachable
  {
  }

  lemma ClearSame(st: State, r: ResultType)
    requires CheckAndClearTable(st, r).Ok?
    ensures var st' := CheckAndClearTable(st, r).value;
            SameCode(st, st') && st'.values == st.values
  {
  }

  lemma TablePop(x: Site, st: State, outer: seq<Value>, c: Config, lo: nat)
    requires Typed(x, st, outer, c) && PopType(st, ValType.I32).Ok? && ChainsOk(st, lo)
    ensures HasI32(c) && c.stack == Pop(c).stack + [Last(c)]
    ensures var st1 := PopType(st, ValType.I32).value;
            SameCode(st, st1) && Typed(x, st1, outer, Pop(c)) && ChainsOk(st1, lo)
  {
    hide ChainsOk, StackOk, Live;
    PopTypeLive(st, ValType.I32);
    TypedPop(x, st, outer, c);
    TypeI32(Last(c));
    TypedShrink(x, st, PopType(st, ValType.I32).value, outer, c, Pop(c));
    SameChains(st, PopType(st, ValType.I32).value, lo);
  }

  lemma TableAgree(
    x: Site, st1: State, ls: seq<nat>, default: nat, st2: State, st3: State, st4: State, st5: State, r: ResultType,
    st': State, goals: seq<Goal>, lo: nat)
    requires SiteOk(x) && ChainsOk(st1, lo) && |ls| <= 0xFFFF
    requires Emit(ContextOf(x), st1, Imm8Or16(BR_TABLE, |ls|)) == Result.Ok(st2)
    requires TableBranches(ContextOf(x), st2, ls) == Result.Ok(st3)
    requires WriteLabelTarget(ContextOf(x), st3, default) == Result.Ok((st4, r))
    requires CheckAndClearTable(st4, r) == Result.Ok(st5) && PopResult(st5, r).Ok?
    requires st' == MarkUnreachable(PopResult(st5, r).value) && Agree(x.code, st', goals)
    ensures Agree(x.code, st4, goals)
  {
    hide Agree, ChainsOk, WriteLabelTarget, TableBranches, Imm8Or16, Emit, PopResult, MarkUnreachable;
    hide CheckAndClearTable;
    SiteHeader(x);
    var cx := ContextOf(x);
    EmitExtends(cx, st1, Imm8Or16(BR_TABLE, |ls|), lo);
    ExtendsElim(st1, st2, lo);
    TableExtends(cx, st2, ls, lo);
    ExtendsElim(st2, st3, lo);
    LabelExtends(cx, st3, default, lo);
    ExtendsElim(st3, st4, lo);
    ClearSame(st4, r);
    SameChains(st4, st5, lo);
    PopMarkSame(st5, r);
    ChainsLength(st5, lo);
    AppendBack(x.code, st5, st', goals, lo);
    ExtendsSame(st4, st5, lo);
    BackElim(x.code, st4, st5, goals, lo);
  }

  /** The label a table jump takes. */
  function TakenLabel(ls: seq<nat>, default: nat, v: U32): nat { if v < |ls| then ls[v] else default }

  lemma TableTaken(
    x: Site, st: State, st1: State, ls: seq<nat>, default: nat, outer: seq<Value>, c: Config, goals: seq<Goal>,
    r: ResultType)
    requires SiteOk(x) && LocalsOk(x, c.locals) && |ls| <= 0xFFFF
    requires HasI32(c) && c.stack == Pop(c).stack + [Last(c)]
    requires SameCode(st, st1) && Typed(x, st1, outer, Pop(c)) && PopResult(st1, r).Ok?
    requires At(x.code, |st1.code|, Imm8Or16(BR_TABLE, |ls|)) && TableStart(st1, |ls|) + 2 * |ls| + 2 <= |x.code|
    requires forall k :: 0 <= k <= |ls| ==>
               Entry(ContextOf(x), x.code, st1, TableLabel(ls, default, k), goals, TableStart(st1, |ls|) + 2 * k, r)
    ensures var l := TakenLabel(ls, default, Last(c).word);
            && BranchReady(x, st1, outer, l, Pop(c)) && |goals| == |st1.frames|
            && HeaderLength(x.header) <= x.Fp()
            && StepOnce(x.s, x.code, MachOf(x, st, outer, c)) == BranchStep(x, st1, goals, outer, l, Pop(c))
  {
    hide Slot, SlotFor, Imm8Or16, Flat, FrameWords, PopResult, Typed, SiteOk, StepBranch, BranchStep;
    hide BranchReady, StepOnce, CanPop;
    hide LabelType, At;
    var c1 := Pop(c);
    var v := Last(c).word;
    var a := TableStart(st1, |ls|);
    assert outer + c.stack == (outer + c1.stack) + [Last(c)];
    LastWord(x, |st.code|, c.locals, outer + c1.stack, Last(c), c.trace);
    var m := MachOf(x, st, outer, c);
    TableStep(x.s, x.code, m, MachAt(x, |st.code|, c.locals, outer + c1.stack, c.trace), a, |ls|, v);
    var k := if v < |ls| then v else |ls|;
    assert Entry(ContextOf(x), x.code, st1, TableLabel(ls, default, k), goals, a + 2 * k, r);
    assert TableLabel(ls, default, k) == TakenLabel(ls, default, v);
    BranchSim(x, st1, outer, c1, TakenLabel(ls, default, v), goals, |st.code|, a - |st.code| + 2 * k,
        Slot(x.code, a + 2 * k));
    SiteHeader(x);
  }

  lemma BrTableEnd(
    x: Site, st: State, st1: State, st': State, ls: seq<nat>, default: nat, outer: seq<Value>, c: Config,
    goals: seq<Goal>, fuel: nat)
    requires HasI32(c) && SameCode(st, st1) && LocalsOk(x, c.locals)
    requires var l := TakenLabel(ls, default, Last(c).word);
             && BranchReady(x, st1, outer, l, Pop(c)) && |goals| == |st1.frames|
             && HeaderLength(x.header) <= x.Fp()
             && StepOnce(x.s, x.code, MachOf(x, st, outer, c)) == BranchStep(x, st1, goals, outer, l, Pop(c))
    requires Located(x.s, x.points, MachOf(x, st, outer, c))
    ensures Sims(x, st, st', goals, outer, MachOf(x, st, outer, c), fuel, ExecOp(Op.BrTable(ls, default), c))
  {
    hide Flat, FrameWords, BranchStep, BranchReady, StepOnce, Typed;
    var l := TakenLabel(ls, default, Last(c).word);
    var m := MachOf(x, st, outer, c);
    FollowOne(x, m);
    BranchShape(x, st, st1, goals, outer, l, Pop(c));
    BranchNotPaused(x, st1, goals, outer, l, Pop(c));
    assert Follow(x.s, x.code, x.points, m, 1) == BranchStep(x, st, goals, outer, l, Pop(c));
  }
}
