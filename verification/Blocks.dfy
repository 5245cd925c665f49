/** Blocks, loops and ifs: how the simulation passes through the labels the compiler resolves. */
module Blocks {
  import opened Values
  import opened Label
  import opened Ir
  import opened Wasm
  import opened Text
  import opened Chains
  import opened Frames
  import opened Extension
  import opened Typing
  import opened Locals
  import opened Machine
  import opened Simulation
  import opened Preservation

  // ----- putting runs together -----

  lemma FollowJoin(x: Site, m: Mach, m1: Mach, a: nat, b: nat)
    requires Follow(x.s, x.code, x.points, m, a) == Next(m1)
    ensures Follow(x.s, x.code, x.points, m, a + b) == Follow(x.s, x.code, x.points, m1, b)
  {
    FollowSplit(x.s, x.code, x.points, m, a, b);
  }

  /** What follows a run that reaches `m1`. */
  lemma SimsAfter(
    x: Site, st: State, st1: State, st': State, goals: seq<Goal>, outer: seq<Value>, m: Mach, m1: Mach, a: nat,
    fuel1: nat, fuel: nat, o: Outcome)
    requires SameShape(st, st1) && fuel <= fuel1 + a
    requires Follow(x.s, x.code, x.points, m, a) == Next(m1) && Sims(x, st1, st', goals, outer, m1, fuel1, o)
    ensures Sims(x, st, st', goals, outer, m, fuel, o)
  {
    hide StackOk, Live, BranchReady, BranchStep, ReturnStep, Advance;
    match o
    case Normal(c) =>
      var n :| Follow(x.s, x.code, x.points, m1, n) == Next(MachOf(x, st', outer, c));
      FollowJoin(x, m, m1, a, n);
    case Branch(l, c) =>
      BranchShape(x, st, st1, goals, outer, l, c);
      var n :| n >= 1 && Follow(x.s, x.code, x.points, m1, n) == BranchStep(x, st1, goals, outer, l, c);
      FollowJoin(x, m, m1, a, n);
    case Returned(c) =>
      var n :| n >= 1 && Follow(x.s, x.code, x.points, m1, n)
          == ReturnStep(x, Flat(Top(c.stack, ResultCount(x.f.sig.result))), c.trace);
      FollowJoin(x, m, m1, a, n);
    case Trap(r, t) =>
      var n :| Follow(x.s, x.code, x.points, m1, n) == Trapped(r, t);
      FollowJoin(x, m, m1, a, n);
    case Timeout(t) =>
      var n :| n >= fuel1 && StillRunning(Follow(x.s, x.code, x.points, m1, n), t);
      FollowJoin(x, m, m1, a, n);
    case Stuck =>
  }

  /** One sequence after another. */
  lemma SimsThen(
    x: Site, st: State, st1: State, st': State, goals: seq<Goal>, outer: seq<Value>, m: Mach, fuel: nat,
    o1: Outcome, o: Outcome)
    requires SameShape(st, st1) && Sims(x, st, st1, goals, outer, m, fuel, o1)
    requires o1.Normal? ==> LocalsOk(x, o1.c.locals)
    requires o1.Normal? ==> Sims(x, st1, st', goals, outer, MachOf(x, st1, outer, o1.c), fuel, o)
    requires !o1.Normal? ==> o == o1
    ensures Sims(x, st, st', goals, outer, m, fuel, o)
  {
    hide StackOk, Live, BranchReady, BranchStep, ReturnStep, Follow;
    if o1.Normal? {
      var n :| Follow(x.s, x.code, x.points, m, n) == Next(MachOf(x, st1, outer, o1.c));
      SimsAfter(x, st, st1, st', goals, outer, m, MachOf(x, st1, outer, o1.c), n, fuel, fuel, o);
    }
  }

  lemma NormalTyped(
    x: Site, st: State, st1: State, goals: seq<Goal>, outer: seq<Value>, m: Mach, fuel: nat, o: Outcome)
    requires o.Normal? && Sims(x, st, st1, goals, outer, m, fuel, o)
    ensures Typed(x, st1, outer, o.c) && LocalsOk(x, o.c.locals)
  {
    hide StackOk, Live, Follow;
  }

  /** From the machine to the outcome of one in-line instruction. */
  lemma StepThenSims(
    x: Site, st: State, st': State, goals: seq<Goal>, outer: seq<Value>, m: Mach, fuel: nat, o: Outcome)
    requires StepSims(x, st', outer, m, o)
    requires Located(x.s, x.points, m)
    ensures Sims(x, st, st', goals, outer, m, fuel, o)
  {
    hide StackOk, Live, Advance, Follow;
    FollowOne(x, m);
    match o
    case Normal(c) => assert Follow(x.s, x.code, x.points, m, 1) == Next(MachOf(x, st', outer, c));
    case Trap(r, t) => assert Follow(x.s, x.code, x.points, m, 1) == Trapped(r, t);
    case _ =>
  }

  // ----- operands under a label -----

  /** Inside a label: `cb` is the configuration around it, without the condition of an if. */
  lemma EnterTyped(x: Site, st: State, st1: State, outer: seq<Value>, c: Config, cb: Config, rt: ResultType)
    requires Typed(x, st, outer, c) && Entered(st, st1, rt) && LocalsOk(x, cb.locals)
    requires st1.values == Knowns(TypesOf(outer + cb.stack))
    ensures Typed(x, st1, outer + cb.stack, Enter(cb))
    ensures (outer + cb.stack) + Enter(cb).stack == outer + cb.stack
    ensures |Flat(outer + cb.stack)| == |Flat(outer)| + StackWords(cb)
  {
    hide Height;
    EnteredOk(st, st1, rt);
    assert outer + cb.stack + [] == outer + cb.stack;
    FlatConcat(outer, cb.stack);
    forall i | 0 <= i < |st1.frames| ensures !st1.frames[i].unreachable {
      if i < |st.frames| { assert st1.frames[i] == st.frames[i]; }
    }
  }

  /** At a live `end` exactly the block's results lie above its start. */
  lemma EndOperands(x: Site, st2: State, outer: seq<Value>, c: Config)
    requires Typed(x, st2, outer, c) && DropFrame(st2).Ok?
    ensures TypesOf(c.stack) == ResultTypes(Innermost(st2).out) && |c.stack| == ResultCount(Innermost(st2).out)
  {
    hide Height;
    var r := Innermost(st2).out;
    PopResultLive(st2, r);
    DropFrameValues(st2);
    assert OperandsOf(r) == Knowns(ResultTypes(r));
    TypedTop(x, st2, outer, c, ResultTypes(r));
    assert |c.stack| == ResultCount(r);
    assert Top(c.stack, ResultCount(r)) == c.stack;
  }

  /** Typing after a block, for whatever way it was left. */
  lemma LeaveTyped(
    x: Site, st: State, st1: State, st2: State, st3: State, outer: seq<Value>, c: Config, c': Config, rt: ResultType,
    results: seq<Value>)
    requires Typed(x, st, outer, c) && Entered(st, st1, rt) && StackOk(st2) && StackStep(st1, st2)
    requires ExitBlock(ContextOf(x), st2) == Result.Ok(st3) && st3.highwater <= x.f.usage
    requires st1.values == Knowns(TypesOf(outer + c'.stack)) && LocalsOk(x, c'.locals)
    requires TypesOf(results) == ResultTypes(rt)
    ensures Typed(x, st3, outer, c'.(stack := c'.stack + results))
  {
    hide Height, ExitBlock;
    ExitOk(ContextOf(x), st, st1, st2, rt);
    ExitValues(ContextOf(x), st, st1, st2, rt);
    var all := outer + (c'.stack + results);
    assert all == (outer + c'.stack) + results;
    TypesOfConcat(outer + c'.stack, results);
    KnownsConcat(TypesOf(outer + c'.stack), TypesOf(results));
    assert OperandsOf(rt) == Knowns(ResultTypes(rt));
    forall i | 0 <= i < |st3.frames| ensures !st3.frames[i].unreachable {
      assert st3.frames[i] == st2.frames[i] && st1.frames[i] == st.frames[i];
    }
  }

  // ----- leaving a label -----

  /** The facts about a label that do not change while its body runs: `c` is the configuration
      around the block, `cb` the one with the operands that stay outside the label. */
  ghost predicate Scope(
    x: Site, st: State, st1: State, st2: State, st3: State, outer: seq<Value>, c: Config, cb: Config, rt: ResultType)
  {
    && Typed(x, st, outer, c) && Entered(st, st1, rt) && StackOk(st2) && StackStep(st1, st2)
    && ExitBlock(ContextOf(x), st2) == Result.Ok(st3) && st3.highwater <= x.f.usage && |st3.code| == |st2.code|
    && st1.values == Knowns(TypesOf(outer + cb.stack)) && LocalsOk(x, cb.locals)
  }

  /** The body ran to its end. */
  lemma LeaveNormal(
    x: Site, st: State, st1: State, st2: State, st3: State, outer: seq<Value>, c: Config, cb: Config, rt: ResultType,
    c2: Config)
    requires Scope(x, st, st1, st2, st3, outer, c, cb, rt) && Typed(x, st2, outer + cb.stack, c2)
    ensures var c3 := c2.(stack := cb.stack + c2.stack);
            Typed(x, st3, outer, c3) && MachOf(x, st2, outer + cb.stack, c2) == MachOf(x, st3, outer, c3)
  {
    hide Height, StackOk, StackStep, Entered, FrameWords, ExitBlock;
    ExitDrops(ContextOf(x), st2);
    EndOperands(x, st2, outer + cb.stack, c2);
    InnerOut(st, st1, st2, rt);
    LeaveTyped(x, st, st1, st2, st3, outer, c, cb.(locals := c2.locals, trace := c2.trace), rt, c2.stack);
    assert outer + cb.stack + c2.stack == outer + (cb.stack + c2.stack);
  }

  lemma ExitDrops(c: Context, st: State)
    requires ExitBlock(c, st).Ok?
    ensures st.frames != [] && DropFrame(st).Ok?
  {
    hide Backpatch, DropFrame;
  }

  lemma InnerOut(st: State, st1: State, st2: State, rt: ResultType)
    requires Entered(st, st1, rt) && StackStep(st1, st2)
    ensures st2.frames != [] && Innermost(st2).out == rt && Innermost(st2).kind == Innermost(st1).kind
    ensures Innermost(st2).height == |st1.values|
  {
  }

  /** The body branched to its own, forward, label. */
  lemma LeaveBranch(
    x: Site, st: State, st1: State, st2: State, st3: State, goals: seq<Goal>, end: Goal, outer: seq<Value>,
    c: Config, cb: Config, rt: ResultType, c2: Config)
    requires Scope(x, st, st1, st2, st3, outer, c, cb, rt) && |goals| == |st.frames|
    requires !Innermost(st1).kind.Loop? && end.branch == |st2.code|
    requires BranchReady(x, st1, outer + cb.stack, 0, c2) && HeaderLength(x.header) <= x.Fp()
    ensures ResultCount(rt) <= |c2.stack|
    ensures var c3 := c2.(stack := cb.stack + Top(c2.stack, ResultCount(rt)));
            && Typed(x, st3, outer, c3)
            && BranchStep(x, st1, goals + [end], outer + cb.stack, 0, c2) == Next(MachOf(x, st3, outer, c3))
  {
    hide Height, StackOk, StackStep, FrameWords, ExitBlock;
    var idx := |st1.frames| - 1;
    assert LabelType(ContextOf(x), st1, idx) == rt;
    var results := Top(c2.stack, ResultCount(rt));
    LeaveTyped(x, st, st1, st2, st3, outer, c, cb.(locals := c2.locals, trace := c2.trace), rt, results);
    OuterHeight(x, st1, outer + cb.stack);
    assert (outer + cb.stack)[..|outer + cb.stack|] == outer + cb.stack;
    assert outer + cb.stack + results == outer + (cb.stack + results);
  }

  lemma OuterHeight(x: Site, st1: State, operands: seq<Value>)
    requires st1.values == Knowns(TypesOf(operands))
    ensures |st1.values| == |operands|
  {
  }

  /** The body branched to a label further out. */
  lemma LeaveFurther(
    x: Site, st: State, st1: State, goals: seq<Goal>, end: Goal, outer: seq<Value>, c: Config, cb: Config,
    rt: ResultType,
    l: nat, c2: Config)
    requires Typed(x, st, outer, c) && Entered(st, st1, rt) && |goals| == |st.frames| && l > 0
    requires BranchReady(x, st1, outer + cb.stack, l, c2) && HeaderLength(x.header) <= x.Fp()
    ensures BranchReady(x, st, outer, l - 1, c2)
    ensures BranchStep(x, st1, goals + [end], outer + cb.stack, l, c2) == BranchStep(x, st, goals, outer, l - 1, c2)
  {
    hide Height, FrameWords, ReturnStep, Live;
    var idx := |st1.frames| - 1 - l;
    assert st1.frames[idx] == st.frames[idx];
    assert st.frames[idx].height <= Innermost(st).height;
    assert (goals + [end])[idx] == goals[idx];
    assert (outer + cb.stack)[..st.frames[idx].height] == outer[..st.frames[idx].height];
  }

  /** Leaving a label in every possible way. */
  lemma LeaveSims(
    x: Site, st: State, st1: State, st2: State, st3: State, goals: seq<Goal>, end: Goal, outer: seq<Value>,
    c: Config, cb: Config, rt: ResultType, m: Mach, fuel: nat, o: Outcome)
    requires Scope(x, st, st1, st2, st3, outer, c, cb, rt) && |goals| == |st.frames|
    requires Sims(x, st1, st2, goals + [end], outer + cb.stack, m, fuel, o)
    requires o.Branch? && o.l == 0 ==> !Innermost(st1).kind.Loop? && end.branch == |st2.code|
    ensures Sims(x, st, st3, goals, outer, m, fuel, Leave(o, cb.stack, ResultCount(rt)))
  {
    hide Entered, StackOk, StackStep, Live, BranchReady, BranchStep, ReturnStep, Follow, Knowns, MachAt;
    match o
    case Normal(c2) =>
      var n :| Follow(x.s, x.code, x.points, m, n) == Next(MachOf(x, st2, outer + cb.stack, c2));
      LeaveNormal(x, st, st1, st2, st3, outer, c, cb, rt, c2);
      assert Follow(x.s, x.code, x.points, m, n) == Next(MachOf(x, st3, outer, c2.(stack := cb.stack + c2.stack)));
    case Branch(l, c2) =>
      var n :| n >= 1 && Follow(x.s, x.code, x.points, m, n)
          == BranchStep(x, st1, goals + [end], outer + cb.stack, l, c2);
      if l == 0 {
        LeaveBranch(x, st, st1, st2, st3, goals, end, outer, c, cb, rt, c2);
        var c3 := c2.(stack := cb.stack + Top(c2.stack, ResultCount(rt)));
        assert Follow(x.s, x.code, x.points, m, n) == Next(MachOf(x, st3, outer, c3));
      } else {
        LeaveFurther(x, st, st1, goals, end, outer, c, cb, rt, l, c2);
        assert Follow(x.s, x.code, x.points, m, n) == BranchStep(x, st, goals, outer, l - 1, c2);
      }
    case _ =>
  }

  // ----- what the compiler did around a body -----

  /** A body between its opening and its `end`, followed by the rest of the sequence. */
  lemma BodyFacts(
    x: Site, st: State, st1: State, body: Code, next: Code, goals: seq<Goal>, lo: nat,
    outer: seq<Value>, c: Config, cb: Config, rt: ResultType)
    requires SiteOk(x) && ChainsOk(st, lo) && Typed(x, st, outer, c)
    requires Opened(st, st1, lo) && Entered(st, st1, rt)
    requires st1.values == Knowns(TypesOf(outer + cb.stack)) && LocalsOk(x, cb.locals)
    requires Compile(ContextOf(x), st1, body).Ok?
    requires ExitBlock(ContextOf(x), Compile(ContextOf(x), st1, body).value).Ok?
    requires var st3 := ExitBlock(ContextOf(x), Compile(ContextOf(x), st1, body).value).value;
             && Compile(ContextOf(x), st3, next).Ok?
             && Agree(x.code, Compile(ContextOf(x), st3, next).value, goals)
             && Compile(ContextOf(x), st3, next).value.highwater <= x.f.usage
    ensures var st2 := Compile(ContextOf(x), st1, body).value;
            var st3 := ExitBlock(ContextOf(x), st2).value;
            && |goals| == |st.frames| && ChainsOk(st1, lo) && ChainsOk(st3, lo) && SameShape(st, st3)
            && Agree(x.code, st2, goals + [Goal(|st2.code|, |st2.code|)])
            && Agree(x.code, st1, goals + [Goal(|st2.code|, |st2.code|)])
            && st2.highwater <= x.f.usage
            && Scope(x, st, st1, st2, st3, outer, c, cb, rt)
  {
    hide Agree, ChainsOk, Opened, Closed, ExitBlock, Compile, StackOk, StackStep, Entered, Live, Extends;
    var cx := ContextOf(x);
    var st2 := Compile(cx, st1, body).value;
    var st3 := ExitBlock(cx, st2).value;
    SiteHeader(x);
    TypedStack(x, st, outer, c);
    OpenedOk(st, st1, lo);
    CompileBody(cx, st, st1, body, lo);
    ExtendsElim(st1, st2, lo);
    ExtendsElim(st, st3, lo);
    CompileExtends(cx, st3, next, lo);
    BackElim(x.code, st3, Compile(cx, st3, next).value, goals, lo);
    AgreeLength(x.code, st3, goals);
    CloseGoals(x.code, st2, st3, goals, lo);
    BackElim(x.code, st1, st2, goals + [Goal(|st2.code|, |st2.code|)], lo);
    EnteredOk(st, st1, rt);
    CompileOk(cx, st1, body);
    ExitOk(cx, st, st1, st2, rt);
    ExitRises(cx, st, st1, st2, rt);
    CompileOk(cx, st3, next);
    StepRises(st3, Compile(cx, st3, next).value);
    ClosedLength(st2, st3);
  }

  lemma ExitRises(c: Context, st: State, st1: State, st2: State, rt: ResultType)
    requires StackOk(st) && Entered(st, st1, rt) && StackOk(st2) && StackStep(st1, st2) && ExitBlock(c, st2).Ok?
    ensures st2.highwater <= ExitBlock(c, st2).value.highwater
  {
    hide Height, ExitBlock;
    ExitValues(c, st, st1, st2, rt);
  }

  lemma StepRises(st: State, st': State)
    requires StackStep(st, st')
    ensures st.highwater <= st'.highwater && SameShape(st, st')
  {
  }

  lemma ClosedLength(st: State, st': State)
    requires Closed(st, st')
    ensures |st'.code| == |st.code|
  {
  }

  // ----- loop -----

  /** A branch to a loop's own label is back at its start, with the operands outside it. */
  lemma LoopBack(
    x: Site, st: State, st1: State, goals: seq<Goal>, end: Goal, outer: seq<Value>, c: Config, rt: ResultType,
    c2: Config)
    requires Typed(x, st, outer, c) && EnterLoop(ContextOf(x), st, rt) == Result.Ok(st1) && |goals| == |st.frames|
    requires BranchReady(x, st1, outer + c.stack, 0, c2) && HeaderLength(x.header) <= x.Fp()
    ensures var c' := c2.(stack := c.stack);
            && Typed(x, st, outer, c')
            && BranchStep(x, st1, goals + [end], outer + c.stack, 0, c2) == Next(MachOf(x, st, outer, c'))
  {
    hide Height, FrameWords;
    assert |st.values| == |outer + c.stack|;
    assert (outer + c.stack)[..|outer + c.stack|] == outer + c.stack;
    assert outer + c.stack + [] == outer + c.stack;
  }

  /** Another round of a loop. */
  lemma LoopAgain(
    x: Site, st: State, st1: State, st2: State, st': State, goals: seq<Goal>, end: Goal, outer: seq<Value>, c: Config,
    rt: ResultType, m: Mach, fuel: nat, c2: Config, o: Outcome)
    requires Typed(x, st, outer, c) && EnterLoop(ContextOf(x), st, rt) == Result.Ok(st1) && |goals| == |st.frames|
    requires Sims(x, st1, st2, goals + [end], outer + c.stack, m, fuel, Branch(0, c2))
    requires LocalsOk(x, c2.locals)
    requires fuel == 0 ==> o == Timeout(c2.trace)
    requires fuel > 0 ==> Sims(x, st, st', goals, outer, MachOf(x, st, outer, c2.(stack := c.stack)), fuel - 1, o)
    ensures Sims(x, st, st', goals, outer, m, fuel, o)
  {
    hide Typed, Follow, BranchReady, BranchStep, EnterLoop, FrameWords;
    LoopBack(x, st, st1, goals, end, outer, c, rt, c2);
    var m1 := MachOf(x, st, outer, c2.(stack := c.stack));
    var n :| n >= 1 && Follow(x.s, x.code, x.points, m, n) == BranchStep(x, st1, goals + [end], outer + c.stack, 0, c2);
    if fuel == 0 {
      assert StillRunning(Follow(x.s, x.code, x.points, m, n), c2.trace);
    } else {
      SameShapeRefl(st);
      SimsAfter(x, st, st, st', goals, outer, m, m1, n, fuel - 1, fuel, o);
    }
  }

  lemma SameShapeRefl(st: State)
    ensures SameShape(st, st)
  {
  }

  // ----- if -----

  /** The finished code at an if: its opcode, and the placeholder filled in with the way to the false
      branch. */
  lemma IfFetched(x: Site, st: State, st1: State, goals: seq<Goal>, goal: Goal, rt: ResultType, lo: nat)
    requires SiteOk(x) && ChainsOk(st, lo) && EnterIf(ContextOf(x), st, rt) == Result.Ok(st1)
    requires |goals| == |st.frames| && Agree(x.code, st1, goals + [goal])
    ensures SlotIn(x.code, |st.code| + 1)
    ensures Decode(x.code, |st.code|) == Decoded.Instr(Instr.If(Slot(x.code, |st.code| + 1)), |st.code| + 3)
    ensures Jump(Slot(x.code, |st.code| + 1)) == goal.otherwise - (|st.code| + 1)
  {
    hide Slot, Agree, ChainOk, Chain, ChainsOk, Jump, Pack, Emit, Words32, Resolved, Opened, SiteOk, Slots;
    var cx := ContextOf(x);
    SiteHeader(x);
    EnterIfOpens(cx, st, rt, lo);
    EnterIfShape(x, st, st1, rt, lo);
    var st0 := PopType(st, ValType.I32).value;
    var sta := Emit(cx, st0, [Imm8(IF, 0)]).value;
    SameChains(st, st0, lo);
    EmitExtends(cx, st0, [Imm8(IF, 0)], lo);
    ExtendsElim(st0, sta, lo);
    OpenBack(x.code, sta, st1, goals, goal, lo);
    EmittedAt(cx, x.code, st0, [Imm8(IF, 0)], goals, lo);
    PlaceholderFilled(x.code, st1, goals, goal, |st.code| + 1);
    FetchJump(x.code, |st.code|, IF);
  }

  lemma EnterIfShape(x: Site, st: State, st1: State, rt: ResultType, lo: nat)
    requires SiteOk(x) && ChainsOk(st, lo) && EnterIf(ContextOf(x), st, rt) == Result.Ok(st1)
    ensures PopType(st, ValType.I32).Ok? && SameCode(st, PopType(st, ValType.I32).value)
    ensures var st0 := PopType(st, ValType.I32).value;
            && Emit(ContextOf(x), st0, [Imm8(IF, 0)]).Ok?
            && Opened(Emit(ContextOf(x), st0, [Imm8(IF, 0)]).value, st1, lo)
    ensures |st1.code| == |st.code| + 3 && Innermost(st1).kind.If? && |st1.frames| == |st.frames| + 1
  {
    EnterIfOpens(ContextOf(x), st, rt, lo);
    hide Chain, ChainOk, Slot, Jump, Pack, Height;
  }

  lemma PlaceholderFilled(code: seq<Word>, st1: State, goals: seq<Goal>, goal: Goal, a: nat)
    requires |st1.frames| == |goals| + 1 && Innermost(st1).kind.If?
    requires Slots(st1, |goals|) == [a] && SlotIn(st1.code, a) && Jump(Slot(st1.code, a)) == 0
    requires Agree(code, st1, goals + [goal])
    ensures SlotIn(code, a) && Jump(Slot(code, a)) == goal.otherwise - a
  {
    hide Slot, Chain;
    assert a in Slots(st1, |goals|);
    assert (goals + [goal])[|goals|] == goal;
  }

  /** The condition decides between the code after the if and its false branch. */
  lemma IfStep(
    x: Site, st: State, st1: State, goals: seq<Goal>, goal: Goal, rt: ResultType, lo: nat, outer: seq<Value>, c: Config)
    requires SiteOk(x) && ChainsOk(st, lo) && Typed(x, st, outer, c)
    requires EnterIf(ContextOf(x), st, rt) == Result.Ok(st1)
    requires |goals| == |st.frames| && Agree(x.code, st1, goals + [goal])
    requires Marked(x, st)
    ensures HasI32(c) && c.stack == Pop(c).stack + [Last(c)]
    ensures st1.values == Knowns(TypesOf(outer + Pop(c).stack)) && LocalsOk(x, c.locals)
    ensures var c1 := Pop(c);
            var pc := if Last(c).word != 0 then |st1.code| else goal.otherwise;
            Follow(x.s, x.code, x.points, MachOf(x, st, outer, c), 1)
            == Next(MachAt(x, pc, c.locals, outer + c1.stack, c.trace))
  {
    hide Agree, ChainsOk, Jump, Slot, SiteOk, Typed, EnterIf, Decode, FrameWords, CanPop, Flat, Follow;
    MarkedMach(x, st, outer, c);
    IfCondition(x, st, st1, rt, lo, outer, c);
    IfFetched(x, st, st1, goals, goal, rt, lo);
    var m := MachOf(x, st, outer, c);
    var keep := outer + Pop(c).stack;
    assert outer + c.stack == keep + [Last(c)];
    LastWord(x, |st.code|, c.locals, keep, Last(c), c.trace);
    IfWord(x, m, MachAt(x, |st.code|, c.locals, keep, c.trace), Slot(x.code, |st.code| + 1), |st.code| + 3);
  }

  lemma IfWord(x: Site, m: Mach, m1: Mach, slot: U32, next: nat)
    requires m.pc >= 0 && Decode(x.code, m.pc) == Decoded.Instr(Instr.If(slot), next)
    requires CanPop(m, 1) && m.(live := Below(m, 1)) == m1
    requires Located(x.s, x.points, m)
    ensures Follow(x.s, x.code, x.points, m, 1)
         == Next(m1.(pc := if m.live[|m.live| - 1] == 0 then m.pc + 1 + Jump(slot) else next))
  {
    hide Jump, Decode;
    FollowOne(x, m);
  }

  lemma IfCondition(x: Site, st: State, st1: State, rt: ResultType, lo: nat, outer: seq<Value>, c: Config)
    requires SiteOk(x) && ChainsOk(st, lo) && Typed(x, st, outer, c)
    requires EnterIf(ContextOf(x), st, rt) == Result.Ok(st1)
    ensures HasI32(c) && c.stack == Pop(c).stack + [Last(c)] && LocalsOk(x, c.locals)
    ensures st1.values == Knowns(TypesOf(outer + Pop(c).stack)) && |st1.code| == |st.code| + 3
  {
    hide ChainsOk, SiteOk, EnterIf, StackOk, Live;
    EnterIfShape(x, st, st1, rt, lo);
    TypedStack(x, st, outer, c);
    EnterIfOk(ContextOf(x), st, rt);
    PopTypeLive(st, ValType.I32);
    TypedPop(x, st, outer, c);
    TypeI32(Last(c));
  }

  /** An if without an else part whose condition is false: it cannot have results. */
  lemma SkippedIf(
    x: Site, st: State, st1: State, st2: State, st3: State, goals: seq<Goal>, outer: seq<Value>, c: Config,
    rt: ResultType, m: Mach, fuel: nat)
    requires HasI32(c) && Scope(x, st, st1, st2, st3, outer, c, Pop(c), rt) && Innermost(st1).kind.If?
    requires Follow(x.s, x.code, x.points, m, 1) == Next(MachAt(x, |st2.code|, c.locals, outer + Pop(c).stack, c.trace))
    ensures Sims(x, st, st3, goals, outer, m, fuel, Normal(Pop(c)))
  {
    hide Height, StackOk, StackStep, Entered, FrameWords, ExitBlock, Follow;
    InnerOut(st, st1, st2, rt);
    IfNeedsElse(ContextOf(x), st2);
    LeaveTyped(x, st, st1, st2, st3, outer, c, Pop(c), rt, []);
    assert Pop(c).stack + [] == Pop(c).stack;
    assert Follow(x.s, x.code, x.points, m, 1) == Next(MachOf(x, st3, outer, Pop(c)));
  }

  lemma IfNeedsElse(c: Context, st: State)
    requires ExitBlock(c, st).Ok?
    ensures st.frames != [] && (Innermost(st).kind.If? ==> Innermost(st).out.None?)
  {
    hide Backpatch, DropFrame;
  }
}
