/** Ifs with an else part: the branch that `else` emits over the else part, and the two ways to the
    end of the block. */
module Elses {
  import opened Values
  import opened Label
  import opened Ir
  import opened Wasm
  import opened Text
  import opened Chains
  import opened Frames
  import opened Extension
  import opened Typing
  import opened Locals
  import opened Machine
  import opened Simulation
  import opened Preservation
  import opened Blocks

  /** The label of the then part: its branches lead to the end, its false branch to the else part. */
  function ThenGoal(st2: State, st4: State): Goal { Goal(|st4.code|, |st2.code| + 3) }

  /** Completions of the five compile-time states around the two arms. */
  predicate ArmGoals(x: Site, st1: State, st2: State, st3: State, st4: State, goals: seq<Goal>) {
    && ElseBranch(ContextOf(x), st2).Ok?
    && Agree(x.code, st1, goals + [ThenGoal(st2, st4)])
    && Agree(x.code, st2, goals + [ThenGoal(st2, st4)])
    && Agree(x.code, ElseBranch(ContextOf(x), st2).value, goals + [ThenGoal(st2, st4)])
    && Agree(x.code, st3, goals + [Goal(|st4.code|, |st4.code|)])
    && Agree(x.code, st4, goals + [Goal(|st4.code|, |st4.code|)])
  }

  lemma ArmChains(
    x: Site, st: State, whole: Code, st1: State, st2: State, st3: State, st4: State, st5: State, st': State,
    goals: seq<Goal>, lo: nat)
    requires SiteOk(x) && ChainsOk(st, lo) && whole.IfElse?
    requires EnterIf(ContextOf(x), st, whole.rt) == Result.Ok(st1)
    requires Compile(ContextOf(x), st1, whole.thn) == Result.Ok(st2)
    requires Else(ContextOf(x), st2) == Result.Ok(st3) && Compile(ContextOf(x), st3, whole.els) == Result.Ok(st4)
    requires ExitBlock(ContextOf(x), st4) == Result.Ok(st5) && Compile(ContextOf(x), st5, whole.next) == Result.Ok(st')
    requires Agree(x.code, st', goals)
    ensures |goals| == |st.frames| && SameShape(st, st5)
    ensures ChainsOk(st1, lo) && ChainsOk(st2, lo) && ChainsOk(st3, lo) && ChainsOk(st5, lo)
    ensures ArmGoals(x, st1, st2, st3, st4, goals) && |st3.code| == |st2.code| + 3 && |st5.code| == |st4.code|
  {
    hide Agree, ChainsOk, Opened, Closed, ExitBlock, Compile, Extends, EnterIf, Else, ElseBranch;
    var cx := ContextOf(x);
    SiteHeader(x);
    EnterIfOpens(cx, st, whole.rt, lo);
    OpenedOk(st, st1, lo);
    CompileArms(cx, st, st1, whole, whole.thn, whole.els, lo);
    ExtendsElim(st1, st2, lo);
    ExtendsElim(st, st5, lo);
    ArmsDone(x, st5, whole.next, st', goals, lo);
    ArmsBack(x, st, st1, st2, st3, st4, st5, goals, lo);
    ClosedLength(st4, st5);
  }

  lemma ArmsDone(x: Site, st5: State, next: Code, st': State, goals: seq<Goal>, lo: nat)
    requires SiteOk(x) && ChainsOk(st5, lo) && Compile(ContextOf(x), st5, next) == Result.Ok(st')
    requires Agree(x.code, st', goals)
    ensures Agree(x.code, st5, goals) && |goals| == |st5.frames|
  {
    hide Agree, ChainsOk, Compile, Extends;
    SiteHeader(x);
    CompileExtends(ContextOf(x), st5, next, lo);
    BackElim(x.code, st5, st', goals, lo);
    AgreeLength(x.code, st5, goals);
  }

  lemma ArmsBack(
    x: Site, st: State, st1: State, st2: State, st3: State, st4: State, st5: State, goals: seq<Goal>, lo: nat)
    requires SiteOk(x) && ChainsOk(st, lo) && Opened(st, st1, lo) && Extends(st1, st2, lo) && ChainsOk(st2, lo)
    requires Else(ContextOf(x), st2) == Result.Ok(st3) && ChainsOk(st3, lo) && Extends(st3, st4, lo) && Closed(st4, st5)
    requires Agree(x.code, st5, goals)
    ensures ArmGoals(x, st1, st2, st3, st4, goals) && |st3.code| == |st2.code| + 3
  {
    hide Agree, ChainsOk, Opened, Closed, Extends, Else, ElseBranch;
    SiteHeader(x);
    ElseBack(ContextOf(x), x.code, st, st1, st2, st3, st4, st5, goals, lo);
    ElseLength(ContextOf(x), st2, lo);
  }

  lemma ElseLength(c: Context, st2: State, lo: nat)
    requires OptionsOk(c.options) && ChainsOk(st2, lo) && Else(c, st2).Ok?
    ensures |Else(c, st2).value.code| == |st2.code| + 3
  {
    hide ChainsOk, Else, ElseBranch, Extends, TailSplit;
    ElseSplits(c, st2, lo);
    ElseBranchExtends(c, st2, lo);
    SplitLength(ElseBranch(c, st2).value, Else(c, st2).value);
  }

  lemma SplitLength(st: State, st': State)
    requires Split(st, st')
    ensures |st'.code| == |st.code|
  {
    hide Chain, Slot, Jump, Tail, BeforeTail;
  }

  /** Typing around the two arms. */
  ghost predicate ArmTypes(
    x: Site, st: State, st1: State, st2: State, st3: State, st4: State, st5: State, outer: seq<Value>, c: Config,
    rt: ResultType)
  {
    && Entered(st, st1, rt) && StackOk(st2) && StackStep(st1, st2) && st2.highwater <= x.f.usage
    && |st.frames| <= |st2.frames| && st4.highwater <= x.f.usage
    && HasI32(c) && Scope(x, AfterThen(st, st2), st3, st4, st5, outer, c, Pop(c), rt)
  }

  lemma ArmsTyped(
    x: Site, st: State, whole: Code, st1: State, st2: State, st3: State, st4: State, st5: State, st': State,
    outer: seq<Value>, c: Config)
    requires Typed(x, st, outer, c) && HasI32(c) && whole.IfElse?
    requires EnterIf(ContextOf(x), st, whole.rt) == Result.Ok(st1)
    requires Compile(ContextOf(x), st1, whole.thn) == Result.Ok(st2)
    requires Else(ContextOf(x), st2) == Result.Ok(st3) && Compile(ContextOf(x), st3, whole.els) == Result.Ok(st4)
    requires ExitBlock(ContextOf(x), st4) == Result.Ok(st5) && Compile(ContextOf(x), st5, whole.next) == Result.Ok(st')
    requires st'.highwater <= x.f.usage && |st5.code| == |st4.code|
    requires st1.values == Knowns(TypesOf(outer + Pop(c).stack))
    ensures ArmTypes(x, st, st1, st2, st3, st4, st5, outer, c, whole.rt)
    ensures SameShape(st, AfterThen(st, st2)) && SameShape(st1, st2)
  {
    hide StackOk, StackStep, Entered, EnterIf, Else, ExitBlock, Compile, Live, Knowns;
    var cx := ContextOf(x);
    var rt := whole.rt;
    TypedStack(x, st, outer, c);
    EnterIfOk(cx, st, rt);
    EnteredOk(st, st1, rt);
    CompileOk(cx, st1, whole.thn);
    StepRises(st1, st2);
    ElseOk(cx, st, st1, st2, rt);
    ElseSame(cx, st, st1, st2, rt);
    CompileOk(cx, st3, whole.els);
    StepRises(st3, st4);
    AfterThenOk(st, st1, st2, rt);
    var base := AfterThen(st, st2);
    ExitOk(cx, base, st3, st4, rt);
    ExitRises(cx, base, st3, st4, rt);
    CompileOk(cx, st5, whole.next);
    StepRises(st5, st');
    StepRises(st, base);
    LiveAfter(st, base);
  }

  lemma ElseSame(c: Context, st: State, st1: State, st2: State, rt: ResultType)
    requires StackOk(st) && Entered(st, st1, rt) && StackOk(st2) && StackStep(st1, st2) && Else(c, st2).Ok?
    ensures Else(c, st2).value.values == st1.values && Else(c, st2).value.highwater == st2.highwater
    ensures Innermost(Else(c, st2).value).kind.Block?
    ensures StackStep(st, AfterThen(st, st2)) ==> forall i :: 0 <= i < |st.frames| ==>
              AfterThen(st, st2).frames[i].unreachable == st.frames[i].unreachable
  {
    hide Height, Else, StackOk;
    ElseValues(c, st, st1, st2, rt);
    forall i | 0 <= i < |st.frames| ensures AfterThen(st, st2).frames[i].unreachable == st.frames[i].unreachable {
      assert st1.frames[i] == st.frames[i];
    }
  }

  lemma LiveAfter(st: State, base: State)
    requires Live(st) && base.values == st.values && |base.frames| == |st.frames|
    requires forall i :: 0 <= i < |st.frames| ==> base.frames[i].unreachable == st.frames[i].unreachable
    ensures Live(base)
  {
  }

  // ----- the end of the then part -----

  /** The then part ran to its end: the branch emitted by `else` is taken with the results. */
  lemma ThenEnds(
    x: Site, st1: State, st2: State, goals: seq<Goal>, goal: Goal, lo: nat, outer: seq<Value>, c2: Config)
    requires SiteOk(x) && ChainsOk(st2, lo) && Typed(x, st2, outer, c2) && SameShape(st1, st2)
    requires |st2.frames| == |goals| + 1 && Else(ContextOf(x), st2).Ok?
    requires ElseBranch(ContextOf(x), st2).Ok? && Agree(x.code, ElseBranch(ContextOf(x), st2).value, goals + [goal])
    requires Marked(x, st2)
    ensures |c2.stack| == ResultCount(Innermost(st2).out)
    ensures BranchReady(x, st1, outer, 0, c2) && HeaderLength(x.header) <= x.Fp()
    ensures Follow(x.s, x.code, x.points, MachOf(x, st2, outer, c2), 1)
        == BranchStep(x, st1, goals + [goal], outer, 0, c2)
  {
    hide Slot, Agree, ChainsOk, Jump, Label.Arity, Depth, Flat, FrameWords, SlotFor, WriteLabelTarget, SiteOk, Typed;
    hide StepBranch, BranchStep, BranchReady, Else, DropFrame, Decode, Emit, At, LabelType, PopResult, Follow;
    MarkedMach(x, st2, outer, c2);
    var cx := ContextOf(x);
    TypedStack(x, st2, outer, c2);
    ElseIsIf(cx, st2, lo);
    ThenResults(x, st2, outer, c2);
    SlotFetched(x, st2, 0, BR, goals + [goal], lo);
    FetchJump(x.code, |st2.code|, BR);
    var slot := Slot(x.code, |st2.code| + 1);
    BranchSim(x, st2, outer, c2, 0, goals + [goal], |st2.code|, 1, slot);
    SiteHeader(x);
    BranchShape(x, st1, st2, goals + [goal], outer, 0, c2);
    BranchNotPaused(x, st2, goals + [goal], outer, 0, c2);
    BrWord(x, MachOf(x, st2, outer, c2), slot);
  }

  /** At a live `else` exactly the block's results lie above its start. */
  lemma ThenResults(x: Site, st2: State, outer: seq<Value>, c2: Config)
    requires Typed(x, st2, outer, c2) && Else(ContextOf(x), st2).Ok? && |st2.frames| >= 2 && Innermost(st2).kind.If?
    ensures |c2.stack| == ResultCount(Innermost(st2).out)
    ensures PopResult(st2, LabelType(ContextOf(x), st2, |st2.frames| - 1)).Ok?
  {
    hide Height, WriteLabelTarget, SplitTail, Live, StackOk, PopResult;
    var cx := ContextOf(x);
    var s1 := Emit(cx, st2, [Imm8(BR, 0)]).value;
    TypedStack(x, st2, outer, c2);
    EmitOk(cx, st2, [Imm8(BR, 0)]);
    EmitSame(cx, st2, [Imm8(BR, 0)]);
    LabelOk(cx, s1, 0);
    var s2 := WriteLabelTarget(cx, s1, 0).value.0;
    LiveSame(st2, s1);
    LiveSame(s1, s2);
    InnermostKept(s1, s2);
    PopResultTransfer(st2, s2, Innermost(st2).out);
    EndOperands(x, s2, outer, c2);
  }

  lemma InnermostKept(st: State, st': State)
    requires StackStep(st, st')
    ensures st'.frames != [] && Innermost(st').out == Innermost(st).out && Innermost(st').height == Innermost(st).height
  {
  }

  /** In the else part the label is a block with the same end. */
  lemma ElseShape(
    x: Site, st1: State, st3: State, goals: seq<Goal>, g: Goal, end: Goal, outer: seq<Value>, l: nat, c: Config)
    requires |st3.frames| == |st1.frames| == |goals| + 1 && g.branch == end.branch
    requires forall i :: 0 <= i < |goals| ==>
               st1.frames[i].kind == st3.frames[i].kind && st1.frames[i].height == st3.frames[i].height
               && st1.frames[i].out == st3.frames[i].out
               && (st1.frames[i].kind.Loop? ==> st1.frames[i].target == st3.frames[i].target)
    requires !Innermost(st1).kind.Loop? && !Innermost(st3).kind.Loop?
    requires Innermost(st1).height == Innermost(st3).height && Innermost(st1).out == Innermost(st3).out
    requires BranchReady(x, st1, outer, l, c) && HeaderLength(x.header) <= x.Fp()
    ensures BranchReady(x, st3, outer, l, c)
    ensures BranchStep(x, st3, goals + [end], outer, l, c) == BranchStep(x, st1, goals + [g], outer, l, c)
  {
    hide Flat, FrameWords, ReturnStep, Carries;
    var idx := |st1.frames| - 1 - l;
    if l == 0 {
      assert (goals + [end])[idx] == end && (goals + [g])[idx] == g;
    } else {
      assert (goals + [end])[idx] == goals[idx] == (goals + [g])[idx];
    }
  }

  lemma SimsElse(
    x: Site, st1: State, st2: State, st3: State, st4: State, goals: seq<Goal>, g: Goal, end: Goal,
    outer: seq<Value>, m: Mach, fuel: nat, o: Outcome)
    requires |st3.frames| == |st1.frames| == |goals| + 1 && g.branch == end.branch
    requires forall i :: 0 <= i < |goals| ==>
               st1.frames[i].kind == st3.frames[i].kind && st1.frames[i].height == st3.frames[i].height
               && st1.frames[i].out == st3.frames[i].out
               && (st1.frames[i].kind.Loop? ==> st1.frames[i].target == st3.frames[i].target)
    requires !Innermost(st1).kind.Loop? && !Innermost(st3).kind.Loop?
    requires Innermost(st1).height == Innermost(st3).height && Innermost(st1).out == Innermost(st3).out
    requires !o.Normal? && Sims(x, st1, st2, goals + [g], outer, m, fuel, o)
    ensures Sims(x, st3, st4, goals + [end], outer, m, fuel, o)
  {
    hide Typed, BranchReady, BranchStep, ReturnStep, Follow, Carries;
    if o.Branch? {
      ElseShape(x, st1, st3, goals, g, end, outer, o.l, o.c);
    }
  }

  lemma ArmFrames(
    x: Site, st: State, st1: State, st2: State, st3: State, st4: State, st5: State, outer: seq<Value>, c: Config,
    rt: ResultType)
    requires ArmTypes(x, st, st1, st2, st3, st4, st5, outer, c, rt)
    ensures |st3.frames| == |st1.frames| == |st.frames| + 1
    ensures forall i :: 0 <= i < |st.frames| ==>
               st1.frames[i].kind == st3.frames[i].kind && st1.frames[i].height == st3.frames[i].height
               && st1.frames[i].out == st3.frames[i].out
               && (st1.frames[i].kind.Loop? ==> st1.frames[i].target == st3.frames[i].target)
    ensures Innermost(st1).out == Innermost(st3).out == Innermost(st2).out == rt
    ensures st1.values == st3.values ==> Innermost(st1).height == Innermost(st3).height
  {
    hide StackOk, Height, ExitBlock, Typed;
    forall i | 0 <= i < |st.frames|
      ensures st1.frames[i].kind == st3.frames[i].kind && st1.frames[i].height == st3.frames[i].height
               && st1.frames[i].out == st3.frames[i].out
               && (st1.frames[i].kind.Loop? ==> st1.frames[i].target == st3.frames[i].target)
    {
      assert st1.frames[i].kind == st2.frames[i].kind;
      assert AfterThen(st, st2).frames[i] == st2.frames[i];
    }
  }

  /** The then part, from its start to the end of the block. */
  lemma ThenLeaves(
    x: Site, st: State, st1: State, st2: State, st3: State, st4: State, st5: State, goals: seq<Goal>, lo: nat,
    outer: seq<Value>, c: Config, rt: ResultType, m: Mach, fuel: nat, o: Outcome)
    requires SiteOk(x) && ChainsOk(st2, lo) && Else(ContextOf(x), st2) == Result.Ok(st3) && |goals| == |st.frames|
    requires ArmTypes(x, st, st1, st2, st3, st4, st5, outer, c, rt) && ArmGoals(x, st1, st2, st3, st4, goals)
    requires SameShape(st1, st2) && SameShape(st, AfterThen(st, st2)) && st1.values == st3.values
    requires Innermost(st1).kind.If? && Innermost(st3).kind.Block?
    requires Sims(x, st1, st2, goals + [ThenGoal(st2, st4)], outer + Pop(c).stack, m, fuel, o)
    requires Marked(x, st2)
    ensures Sims(x, st, st5, goals, outer, m, fuel, Leave(o, Pop(c).stack, ResultCount(rt)))
  {
    hide Agree, ChainsOk, Else, ElseBranch, StackOk, StackStep, Entered, Live, BranchReady, BranchStep;
    hide ReturnStep, Knowns;
    hide Follow, SiteOk, ExitBlock, ContextOf, Carries, Typed;
    var g := ThenGoal(st2, st4);
    var o1 := o;
    ArmFrames(x, st, st1, st2, st3, st4, st5, outer, c, rt);
    if o.Normal? {
      NormalTyped(x, st1, st2, goals + [g], outer + Pop(c).stack, m, fuel, o);
      ThenBranches(x, st1, st2, goals, g, lo, outer + Pop(c).stack, m, fuel, o.c);
      o1 := Branch(0, o.c);
    }
    ThenJoins(x, st, st1, st2, st3, st4, st5, goals, outer, c, rt, m, fuel, o1);
    if o.Normal? {
      assert Top(o.c.stack, ResultCount(rt)) == o.c.stack;
    }
  }

  lemma ThenBranches(
    x: Site, st1: State, st2: State, goals: seq<Goal>, goal: Goal, lo: nat, outer: seq<Value>, m: Mach,
    fuel: nat, c2: Config)
    requires SiteOk(x) && ChainsOk(st2, lo) && SameShape(st1, st2)
    requires |st2.frames| == |goals| + 1 && Else(ContextOf(x), st2).Ok?
    requires ElseBranch(ContextOf(x), st2).Ok? && Agree(x.code, ElseBranch(ContextOf(x), st2).value, goals + [goal])
    requires LocalsOk(x, c2.locals) && Sims(x, st1, st2, goals + [goal], outer, m, fuel, Normal(c2))
    requires Marked(x, st2)
    ensures |c2.stack| == ResultCount(Innermost(st2).out)
    ensures Sims(x, st1, st2, goals + [goal], outer, m, fuel, Branch(0, c2))
  {
    hide Agree, ChainsOk, Else, ElseBranch, BranchReady, BranchStep, Follow, SiteOk, Typed, FrameWords;
    var n :| Follow(x.s, x.code, x.points, m, n) == Next(MachOf(x, st2, outer, c2));
    ThenEnds(x, st1, st2, goals, goal, lo, outer, c2);
    FollowJoin(x, m, MachOf(x, st2, outer, c2), n, 1);
  }

  lemma ThenJoins(
    x: Site, st: State, st1: State, st2: State, st3: State, st4: State, st5: State, goals: seq<Goal>,
    outer: seq<Value>, c: Config, rt: ResultType, m: Mach, fuel: nat, o1: Outcome)
    requires ArmTypes(x, st, st1, st2, st3, st4, st5, outer, c, rt) && |goals| == |st.frames|
    requires SameShape(st, AfterThen(st, st2)) && st1.values == st3.values
    requires Innermost(st1).kind.If? && Innermost(st3).kind.Block?
    requires !o1.Normal? && Sims(x, st1, st2, goals + [ThenGoal(st2, st4)], outer + Pop(c).stack, m, fuel, o1)
    ensures Sims(x, st, st5, goals, outer, m, fuel, Leave(o1, Pop(c).stack, ResultCount(rt)))
  {
    hide StackOk, StackStep, Entered, Live, BranchReady, BranchStep, ReturnStep, Knowns, Advance, ExitBlock;
    hide Typed, Sims;
    ArmFrames(x, st, st1, st2, st3, st4, st5, outer, c, rt);
    var (g, end) := (ThenGoal(st2, st4), Goal(|st4.code|, |st4.code|));
    SimsElse(x, st1, st2, st3, st4, goals, g, end, outer + Pop(c).stack, m, fuel, o1);
    var base := AfterThen(st, st2);
    LeaveSims(x, base, st3, st4, st5, goals, end, outer, c, Pop(c), rt, m, fuel, o1);
    SimsAfter(x, st, base, st5, goals, outer, m, m, 0, fuel, fuel, Leave(o1, Pop(c).stack, ResultCount(rt)));
  }

  /** The else part, from its start to the end of the block. */
  lemma ElseLeaves(
    x: Site, st: State, st1: State, st2: State, st3: State, st4: State, st5: State, goals: seq<Goal>,
    outer: seq<Value>, c: Config, rt: ResultType, m: Mach, m1: Mach, fuel: nat, o: Outcome)
    requires ArmTypes(x, st, st1, st2, st3, st4, st5, outer, c, rt) && |goals| == |st.frames|
    requires SameShape(st, AfterThen(st, st2)) && Innermost(st3).kind.Block?
    requires Follow(x.s, x.code, x.points, m, 1) == Next(m1)
    requires Sims(x, st3, st4, goals + [Goal(|st4.code|, |st4.code|)], outer + Pop(c).stack, m1, fuel, o)
    ensures Sims(x, st, st5, goals, outer, m, fuel, Leave(o, Pop(c).stack, ResultCount(rt)))
  {
    hide StackOk, StackStep, Entered, Live, BranchReady, BranchStep, ReturnStep, Knowns, Follow, ExitBlock, Typed, Sims;
    var end := Goal(|st4.code|, |st4.code|);
    var base := AfterThen(st, st2);
    LeaveSims(x, base, st3, st4, st5, goals, end, outer, c, Pop(c), rt, m1, fuel, o);
    SimsAfter(x, st, base, st5, goals, outer, m, m1, 1, fuel, fuel, Leave(o, Pop(c).stack, ResultCount(rt)));
  }
}
