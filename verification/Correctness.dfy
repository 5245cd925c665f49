/** The compiler is correct: on every function body it accepts, the machine running the emitted code
    does what the structured semantics of the body says, through blocks, loops, ifs and calls. */
module Correctness {
  import opened Values
  import opened Label
  import opened Ir
  import opened Wasm
  import opened Text
  import opened Chains
  import opened Frames
  import opened Extension
  import opened Typing
  import opened Locals
  import opened Machine
  import opened Simulation
  import opened Preservation
  import opened Blocks
  import opened Elses
  import opened Calls

  // ----- single instructions -----

  lemma NopSims(x: Site, st: State, goals: seq<Goal>, outer: seq<Value>, c: Config, fuel: nat)
    requires Typed(x, st, outer, c)
    ensures Sims(x, st, st, goals, outer, MachOf(x, st, outer, c), fuel, Normal(c))
  {
    hide StackOk, Live, FrameWords;
    assert Follow(x.s, x.code, x.points, MachOf(x, st, outer, c), 0) == Next(MachOf(x, st, outer, c));
  }

  lemma InlineOpSims(x: Site, st: State, st': State, op: Op, outer: seq<Value>, c: Config, goals: seq<Goal>, lo: nat)
    requires SiteOk(x) && ChainsOk(st, lo) && Typed(x, st, outer, c)
    requires CompileOp(ContextOf(x), st, op) == Result.Ok(st') && Agree(x.code, st', goals)
    requires st'.highwater <= x.f.usage
    requires op.Const? || op.Num? || op.Drop? || op.Select? || op.LocalGet? || op.LocalSet? || op.LocalTee?
    ensures StepSims(x, st', outer, MachOf(x, st, outer, c), ExecOp(op, c))
  {
    hide SiteOk, ChainsOk, Typed, Agree, StepSims, CompileConstant, CompileNumeric, CompileDrop, CompileSelect;
    hide CompileLocalGet, CompileLocalSet, CompileLocalTee, ExecNum, ExecSelect, FrameWords, Flat;
    if op.Const? { ConstantSims(x, st, st', op.value, outer, c, goals, lo); }
    else if op.Num? { NumericSims(x, st, st', op.op, outer, c, goals, lo); }
    else if op.Drop? { DropSims(x, st, st', outer, c, goals, lo); }
    else if op.Select? { SelectSims(x, st, st', outer, c, goals, lo); }
    else if op.LocalGet? { LocalGetSims(x, st, st', op.x, outer, c, goals, lo); }
    else if op.LocalSet? { LocalSetSims(x, st, st', op.x, outer, c, goals, lo); }
    else { LocalTeeSims(x, st, st', op.x, outer, c, goals, lo); }
  }

  lemma OpSims(
    x: Site, st: State, st': State, op: Op, outer: seq<Value>, c: Config, goals: seq<Goal>, lo: nat, fuel: nat)
    requires SiteOk(x) && ChainsOk(st, lo) && Typed(x, st, outer, c) && !op.Call?
    requires CompileOp(ContextOf(x), st, op) == Result.Ok(st') && Agree(x.code, st', goals)
    requires st'.highwater <= x.f.usage
    requires op.Nop? || Marked(x, st)
    ensures Sims(x, st, st', goals, outer, MachOf(x, st, outer, c), fuel, ExecOp(op, c))
  {
    hide SiteOk, ChainsOk, Typed, Agree, Sims, StepSims, FrameWords, Flat, CompileBr, CompileBrIf;
    hide CompileBrTable, CompileReturn;
    if op.Nop? { NopSims(x, st, goals, outer, c, fuel); }
    else if op.Unreachable? { UnreachableSims(x, st, st', outer, c, goals, lo, fuel); }
    else if op.Br? { BrSims(x, st, st', op.l, outer, c, goals, lo, fuel); }
    else if op.BrIf? { BrIfSims(x, st, st', op.l, outer, c, goals, lo, fuel); }
    else if op.BrTable? { BrTableSims(x, st, st', op.ls, op.default, outer, c, goals, lo, fuel); }
    else if op.Return? { ReturnSims(x, st, st', outer, c, goals, lo, fuel); }
    else {
      TypedStack(x, st, outer, c);
      MarkedMach(x, st, outer, c);
      InlineOpSims(x, st, st', op, outer, c, goals, lo);
      StepThenSims(x, st, st', goals, outer, MachOf(x, st, outer, c), fuel, ExecOp(op, c));
    }
  }

  // ----- a whole function -----

  function BodyStart(x: Site): State
    requires x.f.entry <= |x.code|
  {
    Start(ContextOf(x), x.code[..x.f.entry])
  }

  /** Compiling the body of a loaded function: how it starts and what the finished code holds. */
  lemma FuncFacts(x: Site, start: seq<Value>, trace: seq<HostCall>)
    requires SiteOk(x) && SiteLoaded(x) && LocalsOk(x, start)
    ensures x.f.entry <= |x.code| && Compile(ContextOf(x), BodyStart(x), x.f.body).Ok?
    ensures var (st0, st) := (BodyStart(x), Compile(ContextOf(x), BodyStart(x), x.f.body).value);
            && ChainsOk(st0, x.f.entry) && Typed(x, st0, [], Config(start, [], trace)) && |st0.code| == x.f.entry
            && Agree(x.code, st, [Goal(0, 0)]) && st.highwater <= x.f.usage
            && SameShape(st0, st) && StackOk(st) && DropFrame(st).Ok?
            && Points(ContextOf(x), st0, x.f.body) <= x.Here() && Marked(x, st)
            && At(x.code, |st.code|, Encode(Instr.Return(ResultWords(x.f.sig.result))))
  {
    assert FuncLoaded(x.s, x.code, x.options, x.module_, x.index);
    var st0 := BodyStart(x);
    hide Compile, Finish, Loaded, SiteOk;
    SiteHeader(x);
    StartOk(x, start, trace);
    var st := Compile(ContextOf(x), st0, x.f.body).value;
    CompileExtends(ContextOf(x), st0, x.f.body, x.f.entry);
    ExtendsElim(st0, st, x.f.entry);
    CompileOk(ContextOf(x), st0, x.f.body);
    FinishFacts(x, st0, st);
  }

  lemma StartOk(x: Site, start: seq<Value>, trace: seq<HostCall>)
    requires SiteOk(x) && LocalsOk(x, start) && x.f.entry <= |x.code|
    ensures var st0 := BodyStart(x);
            ChainsOk(st0, x.f.entry) && Typed(x, st0, [], Config(start, [], trace)) && |st0.code| == x.f.entry
  {
    hide LocalTypes, Linked, HostsTyped;
    var none: seq<Value> := [];
    assert none + none == none;
    assert Knowns(TypesOf([])) == [];
  }

  lemma FinishFacts(x: Site, st0: State, st: State)
    requires x.f.entry <= |x.code| && st0 == BodyStart(x) && SameShape(st0, st) && ChainsOk(st, x.f.entry)
    requires Finish(ContextOf(x), st).Ok? && |x.code| < 0x8000_0000
    requires Finish(ContextOf(x), st).value.code <= x.code && Finish(ContextOf(x), st).value.highwater == x.f.usage
    requires StackOk(st)
    ensures Agree(x.code, st, [Goal(0, 0)]) && st.highwater == x.f.usage && DropFrame(st).Ok?
    ensures At(x.code, |st.code|, Encode(Instr.Return(ResultWords(x.f.sig.result))))
  {
    hide Backpatch, Slot, Resolved, Jump, Chain, ChainOk, Height;
    assert FrameOk(st, 0, x.f.entry);
    assert Slots(st, 0) == [];
    DropFrameValues(st);
    assert st.frames[0].out == st0.frames[0].out;
    var r := Finish(ContextOf(x), st).value;
    assert r.code == st.code + [Imm8(RETURN, ResultWords(x.f.sig.result))];
    assert x.code[|st.code|] == r.code[|st.code|];
  }

  /** However the body ends, the function returns its results. */
  lemma FuncEnds(x: Site, st: State, m: Mach, fuel: nat, o: Outcome)
    requires SiteOk(x) && x.f.entry <= |x.code| && SameShape(BodyStart(x), st)
    requires StackOk(st) && DropFrame(st).Ok?
    requires At(x.code, |st.code|, Encode(Instr.Return(ResultWords(x.f.sig.result))))
    requires Sims(x, BodyStart(x), st, [Goal(0, 0)], [], m, fuel, o)
    requires Marked(x, st)
    ensures FuncSims(x, m, fuel, o)
  {
    hide StackOk, Live, ReturnStep, Follow, FrameWords, DropFrame, At, Encode, Carries, HeaderLength, SiteOk, Flat;
    if o.Normal? {
      NormalReturns(x, st, m, fuel, o);
    } else if o.Branch? {
      BranchedReturns(x, o.l, o.c);
      var n :| n >= 1 && Follow(x.s, x.code, x.points, m, n) == BranchStep(x, BodyStart(x), [Goal(0, 0)], [], o.l, o.c);
    }
  }

  lemma BranchedReturns(x: Site, l: nat, c: Config)
    requires x.f.entry <= |x.code| && BranchReady(x, BodyStart(x), [], l, c) && HeaderLength(x.header) <= x.Fp()
    ensures l == 0 && Carries(c, x.f.sig.result)
    ensures BranchStep(x, BodyStart(x), [Goal(0, 0)], [], l, c)
         == ReturnStep(x, Flat(Top(c.stack, ResultCount(x.f.sig.result))), c.trace)
  {
    hide Flat, FrameWords, ReturnStep, HeaderLength;
  }

  lemma NormalReturns(x: Site, st: State, m: Mach, fuel: nat, o: Outcome)
    requires SiteOk(x) && x.f.entry <= |x.code| && SameShape(BodyStart(x), st)
    requires StackOk(st) && DropFrame(st).Ok?
    requires At(x.code, |st.code|, Encode(Instr.Return(ResultWords(x.f.sig.result))))
    requires o.Normal? && Sims(x, BodyStart(x), st, [Goal(0, 0)], [], m, fuel, o)
    requires Marked(x, st)
    ensures FuncSims(x, m, fuel, o)
  {
    hide StackOk, Live, ReturnStep, Follow, FrameWords, DropFrame, At, Encode, HeaderLength, SiteOk, Flat;
    hide StepOnce, StepReturn;
    hide Decode, Typed;
    hide Carries, MachAt, SameShape;
    NormalTyped(x, BodyStart(x), st, [Goal(0, 0)], [], m, fuel, o);
    var m1 := MachOf(x, st, [], o.c);
    EndRuns(x, st, o.c);
    var n :| Follow(x.s, x.code, x.points, m, n) == Next(m1);
    FollowJoin(x, m, m1, n, 1);
  }

  /** The return emitted by `finish`, taken at the end of the body. */
  lemma EndRuns(x: Site, st: State, c: Config)
    requires SiteOk(x) && x.f.entry <= |x.code| && SameShape(BodyStart(x), st)
    requires StackOk(st) && DropFrame(st).Ok? && Typed(x, st, [], c) && Marked(x, st)
    requires At(x.code, |st.code|, Encode(Instr.Return(ResultWords(x.f.sig.result))))
    ensures LocalsOk(x, c.locals) && Carries(c, x.f.sig.result) && HeaderLength(x.header) <= x.Fp()
    ensures Follow(x.s, x.code, x.points, MachOf(x, st, [], c), 1)
         == ReturnStep(x, Flat(Top(c.stack, ResultCount(x.f.sig.result))), c.trace)
  {
    hide StackOk, Live, ReturnStep, Follow, FrameWords, DropFrame, At, Encode, HeaderLength, SiteOk, Flat;
    hide StepOnce, StepReturn;
    hide Decode, Typed, Located, Marked;
    TypedStack(x, st, [], c);
    EndOperands(x, st, [], c);
    assert st.frames[0].out == BodyStart(x).frames[0].out;
    assert Top(c.stack, |c.stack|) == c.stack;
    var m1 := MachOf(x, st, [], c);
    DecodeEncode(x.code, |st.code|, Instr.Return(ResultWords(x.f.sig.result)));
    ReturnFetched(x, m1, |st.code|);
    MarkedMach(x, st, [], c);
    ReturnRuns(x, m1, [], c, |st.code|);
  }

  lemma ReturnFetched(x: Site, m: Mach, pc: nat)
    requires m.pc == pc
    requires Decode(x.code, pc) == Decoded.Instr(Instr.Return(ResultWords(x.f.sig.result)),
               pc + |Encode(Instr.Return(ResultWords(x.f.sig.result)))|)
    ensures StepOnce(x.s, x.code, m) == StepReturn(x.s, m, ResultWords(x.f.sig.result))
  {
    hide Decode, StepReturn;
  }

  // ----- sequences and bodies, by induction -----

  /** Where the words of a sequence's own operands start. */
  function Base(x: Site, outer: seq<Value>): nat { x.Call().Base() + |Flat(outer)| }

  /** Every accepted sequence: what the structured semantics says, the machine does, with the same
      locals, operands, host calls and trap, leaving by the same label with the same operands; and
      the machine runs for at least as many steps as the semantics has fuel. */
  lemma {:induction false} CodeSims(
    x: Site, st: State, code: Code, outer: seq<Value>, c: Config, goals: seq<Goal>, lo: nat, fuel: nat)
    requires SiteOk(x) && SiteLoaded(x) && ChainsOk(st, lo) && Typed(x, st, outer, c)
    requires Compile(ContextOf(x), st, code).Ok?
    requires Agree(x.code, Compile(ContextOf(x), st, code).value, goals)
    requires Compile(ContextOf(x), st, code).value.highwater <= x.f.usage
    requires Points(ContextOf(x), st, code) <= x.Here()
    ensures Sims(x, st, Compile(ContextOf(x), st, code).value, goals, outer, MachOf(x, st, outer, c), fuel,
                 Exec(x.s, x.module_, code, c, Base(x, outer), fuel))
    decreases fuel, 1, code, 2
  {
    hide *;
    if code.Done? {
      DoneSims(x, st, goals, outer, c, fuel);
    } else if code.Plain? {
      PlainSims(x, st, code, outer, c, goals, lo, fuel);
    } else if code.Block? {
      BlockSims(x, st, code, outer, c, goals, lo, fuel);
    } else if code.Loop? {
      LoopSims(x, st, code, outer, c, goals, lo, fuel);
    } else if code.If? {
      IfSims(x, st, code, outer, c, goals, lo, fuel);
    } else {
      IfElseSims(x, st, code, outer, c, goals, lo, fuel);
    }
  }

  lemma DoneSims(x: Site, st: State, goals: seq<Goal>, outer: seq<Value>, c: Config, fuel: nat)
    requires Typed(x, st, outer, c)
    ensures Compile(ContextOf(x), st, Done) == Result.Ok(st)
    ensures LocalsOk(x, c.locals)
    ensures Sims(x, st, st, goals, outer, MachOf(x, st, outer, c), fuel,
        Exec(x.s, x.module_, Done, c, Base(x, outer), fuel))
  {
    hide Sims, StackOk, Live;
    NopSims(x, st, goals, outer, c, fuel);
  }

  /** What follows a part that ends in state `st3`. */
  lemma {:induction false} NextSims(
    x: Site, st: State, st3: State, next: Code, outer: seq<Value>, goals: seq<Goal>, lo: nat, m: Mach,
    fuel: nat, o1: Outcome)
    requires SiteOk(x) && SiteLoaded(x) && ChainsOk(st3, lo) && SameShape(st, st3)
    requires Sims(x, st, st3, goals, outer, m, fuel, o1)
    requires Compile(ContextOf(x), st3, next).Ok?
    requires Agree(x.code, Compile(ContextOf(x), st3, next).value, goals)
    requires Compile(ContextOf(x), st3, next).value.highwater <= x.f.usage
    requires Points(ContextOf(x), st3, next) <= x.Here()
    ensures Sims(x, st, Compile(ContextOf(x), st3, next).value, goals, outer, m, fuel,
                 if o1.Normal? then Exec(x.s, x.module_, next, o1.c, Base(x, outer), fuel) else o1)
    decreases fuel, 1, next, 3
  {
    hide *;
    var st' := Compile(ContextOf(x), st3, next).value;
    if o1.Normal? {
      NormalTyped(x, st, st3, goals, outer, m, fuel, o1);
      CodeSims(x, st3, next, outer, o1.c, goals, lo, fuel);
      SimsThen(x, st, st3, st', goals, outer, m, fuel, o1, Exec(x.s, x.module_, next, o1.c, Base(x, outer), fuel));
    } else {
      SimsThen(x, st, st3, st', goals, outer, m, fuel, o1, o1);
    }
  }

  // ----- plain instructions -----

  lemma PlainFacts(
    x: Site, st: State, op: Op, next: Code, outer: seq<Value>, c: Config, goals: seq<Goal>, lo: nat)
    requires SiteOk(x) && ChainsOk(st, lo) && Typed(x, st, outer, c)
    requires CompileOp(ContextOf(x), st, op).Ok?
    requires Compile(ContextOf(x), CompileOp(ContextOf(x), st, op).value, next).Ok?
    requires var st' := Compile(ContextOf(x), CompileOp(ContextOf(x), st, op).value, next).value;
             Agree(x.code, st', goals) && st'.highwater <= x.f.usage
    ensures var st3 := CompileOp(ContextOf(x), st, op).value;
            ChainsOk(st3, lo) && SameShape(st, st3) && Agree(x.code, st3, goals) && st3.highwater <= x.f.usage
  {
    hide SiteOk, ChainsOk, Typed, Agree, CompileOp, Compile, Extends, StackOk, StackStep;
    var cx := ContextOf(x);
    var st3 := CompileOp(cx, st, op).value;
    SiteHeader(x);
    TypedStack(x, st, outer, c);
    OpExtends(cx, st, op, lo);
    ExtendsElim(st, st3, lo);
    CompileExtends(cx, st3, next, lo);
    BackElim(x.code, st3, Compile(cx, st3, next).value, goals, lo);
    OpOk(cx, st, op);
    CompileOk(cx, st3, next);
    StepRises(st3, Compile(cx, st3, next).value);
  }

  lemma {:induction false} PlainSims(
    x: Site, st: State, code: Code, outer: seq<Value>, c: Config, goals: seq<Goal>, lo: nat, fuel: nat)
    requires SiteOk(x) && SiteLoaded(x) && ChainsOk(st, lo) && Typed(x, st, outer, c) && code.Plain?
    requires Compile(ContextOf(x), st, code).Ok?
    requires Agree(x.code, Compile(ContextOf(x), st, code).value, goals)
    requires Compile(ContextOf(x), st, code).value.highwater <= x.f.usage
    requires Points(ContextOf(x), st, code) <= x.Here()
    ensures LocalsOk(x, c.locals)
    ensures Sims(x, st, Compile(ContextOf(x), st, code).value, goals, outer, MachOf(x, st, outer, c), fuel,
                 Exec(x.s, x.module_, code, c, Base(x, outer), fuel))
    decreases fuel, 1, code, 0
  {
    hide SiteOk, SiteLoaded, ChainsOk, Typed, Agree, Sims, ExecOp, ExecCall, FrameWords, Base, SameShape;
    var st3 := CompileOp(ContextOf(x), st, code.op).value;
    TypedStack(x, st, outer, c);
    PlainFacts(x, st, code.op, code.next, outer, c, goals, lo);
    var m := MachOf(x, st, outer, c);
    if code.op.Call? {
      CallSims(x, st, st3, code.op.x, outer, c, goals, lo, fuel);
      NextSims(x, st, st3, code.next, outer, goals, lo, m, fuel,
               ExecCall(x.s, x.module_, code.op.x, c, Base(x, outer), fuel));
    } else {
      OpSims(x, st, st3, code.op, outer, c, goals, lo, fuel);
      NextSims(x, st, st3, code.next, outer, goals, lo, m, fuel, ExecOp(code.op, c));
    }
  }

  // ----- calls -----

  lemma {:induction false} CallSims(
    x: Site, st: State, st': State, k: nat, outer: seq<Value>, c: Config, goals: seq<Goal>, lo: nat, fuel: nat)
    requires SiteOk(x) && SiteLoaded(x) && ChainsOk(st, lo) && Typed(x, st, outer, c)
    requires CompileCall(ContextOf(x), st, k) == Result.Ok(st') && Agree(x.code, st', goals)
    requires st'.highwater <= x.f.usage
    requires Marked(x, st)
    ensures LocalsOk(x, c.locals)
    ensures Sims(x, st, st', goals, outer, MachOf(x, st, outer, c), fuel,
                 ExecCall(x.s, x.module_, k, c, Base(x, outer), fuel))
    decreases fuel, 0, Done, 1
  {
    hide SiteOk, SiteLoaded, ChainsOk, Typed, Agree, Sims, FrameWords, CompileCall, Flat, ExecFunc, ExecHost;
    hide Linked, Marked;
    TypedStack(x, st, outer, c);
    SiteModule(x);
    CallKnown(ContextOf(x), st, k);
    var e := ContextOf(x).index[k];
    if e.ref.Host? {
      HostCallSims(x, st, st', k, outer, c, goals, lo, fuel);
    } else if fuel == 0 {
      StillHere(x, st, st', goals, outer, c);
    } else if e.ref.Local? {
      FuncCallSims(x, st, st', k, x.module_, e.ref.index, outer, c, goals, lo, fuel);
    } else {
      FuncCallSims(x, st, st', k, e.ref.module_, e.ref.index, outer, c, goals, lo, fuel);
    }
  }

  lemma CallKnown(c: Context, st: State, k: nat)
    requires CompileCall(c, st, k).Ok?
    ensures k < |c.index|
  {
    hide PopTypes, PushResult, Emit;
  }

  lemma StillHere(x: Site, st: State, st': State, goals: seq<Goal>, outer: seq<Value>, c: Config)
    requires LocalsOk(x, c.locals)
    ensures Sims(x, st, st', goals, outer, MachOf(x, st, outer, c), 0, Timeout(c.trace))
  {
    hide FrameWords, Flat;
    assert StillRunning(Follow(x.s, x.code, x.points, MachOf(x, st, outer, c), 0), c.trace);
  }

  lemma FuncExists(x: Site, k: nat, module_: nat, i: nat)
    requires SiteOk(x) && k < |ContextOf(x).index| && Leads(ContextOf(x).index[k].ref, x.module_, module_, i)
    ensures module_ < |x.s.modules| && i < |x.s.modules[module_].functions|
    ensures x.s.modules[module_].functions[i].sig == ContextOf(x).index[k].sig
  {
    hide HostsTyped;
    assert RefOk(x.s, x.module_, x.s.modules[x.module_].index[k]);
  }

  lemma {:induction false} FuncCallSims(
    x: Site, st: State, st': State, k: nat, module_: nat, i: nat,
    outer: seq<Value>, c: Config, goals: seq<Goal>, lo: nat, fuel: nat)
    requires SiteOk(x) && SiteLoaded(x) && ChainsOk(st, lo) && Typed(x, st, outer, c)
    requires CompileCall(ContextOf(x), st, k) == Result.Ok(st') && Agree(x.code, st', goals)
    requires st'.highwater <= x.f.usage && fuel > 0
    requires k < |ContextOf(x).index| && Leads(ContextOf(x).index[k].ref, x.module_, module_, i)
    requires Marked(x, st)
    ensures LocalsOk(x, c.locals)
    ensures Sims(x, st, st', goals, outer, MachOf(x, st, outer, c), fuel,
                 ExecFunc(x.s, module_, i, c, Base(x, outer), fuel - 1))
    decreases fuel, 0, Done, 0
  {
    hide SiteOk, SiteLoaded, ChainsOk, Typed, Agree, Sims, FrameWords, CompileCall, Flat, Linked, FuncSims;
    hide StepOnce, Follow, Exec;
    hide LocalTypes, MachAt;
    FuncExists(x, k, module_, i);
    TypedStack(x, st, outer, c);
    var f := x.s.modules[module_].functions[i];
    CallTyped(x, st, st', k, outer, c, goals, lo);
    var rest := c.stack[..|c.stack| - |f.sig.params|];
    var args := Top(c.stack, |f.sig.params|);
    if x.s.stackWords < Base(x, outer) + StackWords(c) + f.RequiredWords() {
      OverflowSims(x, st, st', k, module_, i, outer, c, goals, lo, fuel);
    } else {
      var y := CallBegins(x, st, st', k, module_, i, outer, c, rest, args, goals, lo);
      FuncBody(y, args + Zeros(GroupTypes(f.groups)), c.trace, fuel - 1);
      CodeLength(x, st', goals);
      CallFinished(x, y, st, st', goals, outer, c, rest, MachOf(x, st, outer, c),
                   MachAt(y, f.entry, args + Zeros(GroupTypes(f.groups)), [], c.trace), fuel,
                   Exec(x.s, module_, f.body, Config(args + Zeros(GroupTypes(f.groups)), [], c.trace),
                       y.Call().Base(), fuel - 1));
    }
  }

  lemma CodeLength(x: Site, st: State, goals: seq<Goal>)
    requires Agree(x.code, st, goals)
    ensures |st.code| < 0x8000_0000
  {
  }

  lemma OverflowSims(
    x: Site, st: State, st': State, k: nat, module_: nat, i: nat,
    outer: seq<Value>, c: Config, goals: seq<Goal>, lo: nat, fuel: nat)
    requires SiteOk(x) && ChainsOk(st, lo) && Typed(x, st, outer, c)
    requires CompileCall(ContextOf(x), st, k) == Result.Ok(st') && Agree(x.code, st', goals)
    requires st'.highwater <= x.f.usage
    requires k < |ContextOf(x).index| && Leads(ContextOf(x).index[k].ref, x.module_, module_, i)
    requires module_ < |x.s.modules| && i < |x.s.modules[module_].functions|
    requires x.s.stackWords < Base(x, outer) + StackWords(c) + x.s.modules[module_].functions[i].RequiredWords()
    requires Marked(x, st)
    ensures LocalsOk(x, c.locals)
    ensures Sims(x, st, st', goals, outer, MachOf(x, st, outer, c), fuel, Trap(StackOverflow, c.trace))
  {
    hide SiteOk, ChainsOk, Typed, Agree, FrameWords, CompileCall, Flat, Linked, StepOnce, StepCall, HostsTyped;
    MarkedMach(x, st, outer, c);
    TypedStack(x, st, outer, c);
    SiteModule(x);
    CallTyped(x, st, st', k, outer, c, goals, lo);
    CallOverflows(x, st, outer, c, module_, i);
    var m := MachOf(x, st, outer, c);
    CallStep(x.s, m, ContextOf(x).index[k].ref, module_, i, |st'.code|);
    FollowOne(x, m);
    assert Follow(x.s, x.code, x.points, m, 1) == Trapped(StackOverflow, c.trace);
  }

  /** A call that fits: the callee's activation `y`, and the step into it. */
  lemma CallBegins(
    x: Site, st: State, st': State, k: nat, module_: nat, i: nat,
    outer: seq<Value>, c: Config, rest: seq<Value>, args: seq<Value>, goals: seq<Goal>, lo: nat) returns (y: Site)
    requires SiteOk(x) && SiteLoaded(x) && ChainsOk(st, lo) && Typed(x, st, outer, c) && LocalsOk(x, c.locals)
    requires CompileCall(ContextOf(x), st, k) == Result.Ok(st') && Agree(x.code, st', goals)
    requires st'.highwater <= x.f.usage
    requires k < |ContextOf(x).index| && Leads(ContextOf(x).index[k].ref, x.module_, module_, i)
    requires module_ < |x.s.modules| && i < |x.s.modules[module_].functions|
    requires x.s.modules[module_].functions[i].sig == ContextOf(x).index[k].sig
    requires c.stack == rest + args && |args| == |x.s.modules[module_].functions[i].sig.params|
    requires Base(x, outer) + StackWords(c) + x.s.modules[module_].functions[i].RequiredWords() <= x.s.stackWords
    requires Marked(x, st)
    ensures y.s == x.s && y.code == x.code && y.points == x.points
    ensures y.module_ == module_ && y.f == x.s.modules[module_].functions[i]
    ensures y.below == FrameWords(x, c.locals) + Flat(outer + rest)
    ensures y.back == |st.code| && y.outer == x.outer + [x.Call()]
    ensures SiteOk(y) && SiteLoaded(y) && CallerModule(y) == x.module_
    ensures HeaderLength(y.header) <= y.Fp() && y.Fp() - HeaderLength(y.header) == x.Fp()
    ensures y.Call().Base() == Base(x, outer) + StackWords(c) + 2 + y.f.LocalWords()
    ensures LocalsOk(y, args + Zeros(GroupTypes(y.f.groups)))
    ensures Follow(x.s, x.code, x.points, MachOf(x, st, outer, c), 1)
         == Next(MachAt(y, y.f.entry, args + Zeros(GroupTypes(y.f.groups)), [], c.trace))
  {
    hide SiteOk, SiteLoaded, ChainsOk, Typed, Agree, FrameWords, CompileCall, Flat, Linked, StepOnce;
    hide StepCall, HostsTyped, MachAt;
    hide LocalTypes, Follow;
    MarkedMach(x, st, outer, c);
    SiteModule(x);
    CallTyped(x, st, st', k, outer, c, goals, lo);
    assert Top(c.stack, |args|) == args && c.stack[..|c.stack| - |args|] == rest;
    TypedFits(x, st, outer, c);
    ChainsLength(st, lo);
    var f := x.s.modules[module_].functions[i];
    FlatConcat(outer, c.stack);
    assert outer + c.stack == (outer + rest) + args;
    CalleeOk(x, module_, i, c.locals, outer + rest, args, |st.code|);
    y := Callee(x, module_, i, f, c.locals, outer + rest, |st.code|);
    SiteHeader(y);
    CallEnters(x, module_, i, c.locals, outer + rest, args, |st.code|, c.trace);
    var m := MachOf(x, st, outer, c);
    MachFields(x, st, outer, c);
    CallStep(x.s, m, ContextOf(x).index[k].ref, module_, i, |st'.code|);
    FollowStep(x, m, MachAt(y, f.entry, args + Zeros(GroupTypes(f.groups)), [], c.trace));
  }

  lemma MachFields(x: Site, st: State, outer: seq<Value>, c: Config)
    requires LocalsOk(x, c.locals)
    ensures MachOf(x, st, outer, c).pc == |st.code| && MachOf(x, st, outer, c).module_ == x.module_
  {
  }

  lemma FollowStep(x: Site, m: Mach, m1: Mach)
    requires StepOnce(x.s, x.code, m) == Next(m1)
    requires Located(x.s, x.points, m)
    ensures Follow(x.s, x.code, x.points, m, 1) == Next(m1)
  {
    hide StepOnce;
    FollowOne(x, m);
  }

  /** The body of a called function. */
  lemma {:induction false} FuncBody(x: Site, start: seq<Value>, trace: seq<HostCall>, fuel: nat)
    requires SiteOk(x) && SiteLoaded(x) && LocalsOk(x, start)
    ensures FuncSims(x, MachAt(x, x.f.entry, start, [], trace), fuel,
                     Exec(x.s, x.module_, x.f.body, Config(start, [], trace), x.Call().Base(), fuel))
    decreases fuel, 2, Done, 0
  {
    hide SiteOk, SiteLoaded, ChainsOk, Typed, Agree, FrameWords, Flat, Linked, Exec, Sims, FuncSims, At;
    hide Encode, StackOk;
    FuncFacts(x, start, trace);
    var st0 := BodyStart(x);
    var c := Config(start, [], trace);
    CodeSims(x, st0, x.f.body, [], c, [Goal(0, 0)], x.f.entry, fuel);
    FlatNone();
    assert [] + c.stack == [];
    FuncEnds(x, Compile(ContextOf(x), st0, x.f.body).value, MachAt(x, x.f.entry, start, [], trace), fuel,
             Exec(x.s, x.module_, x.f.body, c, x.Call().Base(), fuel));
  }

  // ----- blocks -----

  lemma {:induction false} BlockSims(
    x: Site, st: State, code: Code, outer: seq<Value>, c: Config, goals: seq<Goal>, lo: nat, fuel: nat)
    requires SiteOk(x) && SiteLoaded(x) && ChainsOk(st, lo) && Typed(x, st, outer, c) && code.Block?
    requires Compile(ContextOf(x), st, code).Ok?
    requires Agree(x.code, Compile(ContextOf(x), st, code).value, goals)
    requires Compile(ContextOf(x), st, code).value.highwater <= x.f.usage
    requires Points(ContextOf(x), st, code) <= x.Here()
    ensures LocalsOk(x, c.locals)
    ensures Sims(x, st, Compile(ContextOf(x), st, code).value, goals, outer, MachOf(x, st, outer, c), fuel,
                 Exec(x.s, x.module_, code, c, Base(x, outer), fuel))
    decreases fuel, 1, code, 0
  {
    hide SiteOk, SiteLoaded, ChainsOk, Typed, Agree, Sims, FrameWords, ExitBlock, Opened, Entered, Flat;
    hide Scope, SameShape, EnterBlock, Exec, Compile, Points;
    BlockCompiles(ContextOf(x), st, code);
    BlockExecs(x, code, outer, c, fuel);
    var cx := ContextOf(x);
    TypedStack(x, st, outer, c);
    SiteHeader(x);
    EnterOpens(cx, st, code.rt, lo);
    EnterOk(cx, st, code.rt);
    var st1 := EnterBlock(cx, st, code.rt).value;
    EnterBlockShape(x, st, st1, code.rt, outer, c);
    BodyFacts(x, st, st1, code.body, code.next, goals, lo, outer, c, c, code.rt);
    var st2 := Compile(cx, st1, code.body).value;
    var st3 := ExitBlock(cx, st2).value;
    var end := Goal(|st2.code|, |st2.code|);
    EnterTyped(x, st, st1, outer, c, c, code.rt);
    CodeSims(x, st1, code.body, outer + c.stack, Enter(c), goals + [end], lo, fuel);
    var o := Exec(x.s, x.module_, code.body, Enter(c), Base(x, outer + c.stack), fuel);
    var m := MachOf(x, st, outer, c);
    LeaveSims(x, st, st1, st2, st3, goals, end, outer, c, c, code.rt, m, fuel, o);
    NextSims(x, st, st3, code.next, outer, goals, lo, m, fuel, Leave(o, c.stack, ResultCount(code.rt)));
  }

  lemma BlockCompiles(c: Context, st: State, code: Code)
    requires code.Block?
    ensures Compile(c, st, code) ==
            (var st1 :- EnterBlock(c, st, code.rt);
             var st2 :- Compile(c, st1, code.body);
             var st3 :- ExitBlock(c, st2);
             Compile(c, st3, code.next))
    ensures Points(c, st, code) == BodyPoints(c, EnterBlock(c, st, code.rt), code, code.body, code.next)
  {
    hide EnterBlock, ExitBlock, BodyPoints;
  }

  lemma BlockExecs(x: Site, code: Code, outer: seq<Value>, c: Config, fuel: nat)
    requires code.Block?
    ensures var o := Exec(x.s, x.module_, code.body, Enter(c), Base(x, outer + c.stack), fuel);
            var o1 := Leave(o, c.stack, ResultCount(code.rt));
            Exec(x.s, x.module_, code, c, Base(x, outer), fuel) ==
            if o1.Normal? then Exec(x.s, x.module_, code.next, o1.c, Base(x, outer), fuel) else o1
  {
    hide Flat, Leave;
    FlatConcat(outer, c.stack);
  }

  lemma EnterBlockShape(x: Site, st: State, st1: State, rt: ResultType, outer: seq<Value>, c: Config)
    requires Typed(x, st, outer, c)
    requires EnterBlock(ContextOf(x), st, rt) == Result.Ok(st1) || EnterLoop(ContextOf(x), st, rt) == Result.Ok(st1)
    ensures st1.values == Knowns(TypesOf(outer + c.stack)) && st1.code == st.code
    ensures EnterBlock(ContextOf(x), st, rt) == Result.Ok(st1) ==> !Innermost(st1).kind.Loop?
  {
  }

  // ----- loops -----

  lemma {:induction false} LoopSims(
    x: Site, st: State, code: Code, outer: seq<Value>, c: Config, goals: seq<Goal>, lo: nat, fuel: nat)
    requires SiteOk(x) && SiteLoaded(x) && ChainsOk(st, lo) && Typed(x, st, outer, c) && code.Loop?
    requires Compile(ContextOf(x), st, code).Ok?
    requires Agree(x.code, Compile(ContextOf(x), st, code).value, goals)
    requires Compile(ContextOf(x), st, code).value.highwater <= x.f.usage
    requires Points(ContextOf(x), st, code) <= x.Here()
    ensures LocalsOk(x, c.locals)
    ensures Sims(x, st, Compile(ContextOf(x), st, code).value, goals, outer, MachOf(x, st, outer, c), fuel,
                 Exec(x.s, x.module_, code, c, Base(x, outer), fuel))
    decreases fuel, 1, code, 0
  {
    hide SiteOk, SiteLoaded, ChainsOk, Typed, Agree, Sims, FrameWords, ExitBlock, Opened, Entered, Flat;
    hide Scope, SameShape, EnterLoop, Exec, Compile, Points;
    LoopCompiles(ContextOf(x), st, code);
    LoopExecs(x, code, outer, c, fuel);
    var cx := ContextOf(x);
    TypedStack(x, st, outer, c);
    SiteHeader(x);
    EnterOpens(cx, st, code.rt, lo);
    EnterOk(cx, st, code.rt);
    var st1 := EnterLoop(cx, st, code.rt).value;
    EnterBlockShape(x, st, st1, code.rt, outer, c);
    BodyFacts(x, st, st1, code.body, code.next, goals, lo, outer, c, c, code.rt);
    var st2 := Compile(cx, st1, code.body).value;
    var st3 := ExitBlock(cx, st2).value;
    var end := Goal(|st2.code|, |st2.code|);
    EnterTyped(x, st, st1, outer, c, c, code.rt);
    CodeSims(x, st1, code.body, outer + c.stack, Enter(c), goals + [end], lo, fuel);
    var o := Exec(x.s, x.module_, code.body, Enter(c), Base(x, outer + c.stack), fuel);
    var m := MachOf(x, st, outer, c);
    if o.Branch? && o.l == 0 {
      AgainTyped(x, st, st1, st2, goals, end, outer, c, code.rt, m, fuel, o.c);
      if fuel > 0 {
        CodeSims(x, st, code, outer, o.c.(stack := c.stack), goals, lo, fuel - 1);
      }
      LoopAgain(x, st, st1, st2, Compile(cx, st, code).value, goals, end, outer, c, code.rt, m, fuel, o.c,
                Exec(x.s, x.module_, code, c, Base(x, outer), fuel));
    } else {
      LeaveSims(x, st, st1, st2, st3, goals, end, outer, c, c, code.rt, m, fuel, o);
      NextSims(x, st, st3, code.next, outer, goals, lo, m, fuel, Leave(o, c.stack, ResultCount(code.rt)));
    }
  }

  lemma LoopCompiles(c: Context, st: State, code: Code)
    requires code.Loop?
    ensures Compile(c, st, code) ==
            (var st1 :- EnterLoop(c, st, code.rt);
             var st2 :- Compile(c, st1, code.body);
             var st3 :- ExitBlock(c, st2);
             Compile(c, st3, code.next))
    ensures Points(c, st, code) == BodyPoints(c, EnterLoop(c, st, code.rt), code, code.body, code.next)
  {
    hide EnterLoop, ExitBlock, BodyPoints;
  }

  /** One round of a loop. */
  lemma LoopExecs(x: Site, code: Code, outer: seq<Value>, c: Config, fuel: nat)
    requires code.Loop?
    ensures var o := Exec(x.s, x.module_, code.body, Enter(c), Base(x, outer + c.stack), fuel);
            var o1 := Leave(o, c.stack, ResultCount(code.rt));
            Exec(x.s, x.module_, code, c, Base(x, outer), fuel) ==
            if o.Branch? && o.l == 0 then
              if fuel == 0 then Timeout(o.c.trace)
              else Exec(x.s, x.module_, code, o.c.(stack := c.stack), Base(x, outer), fuel - 1)
            else if o1.Normal? then Exec(x.s, x.module_, code.next, o1.c, Base(x, outer), fuel)
            else o1
  {
    hide Flat, Leave;
    FlatConcat(outer, c.stack);
  }

  lemma AgainTyped(
    x: Site, st: State, st1: State, st2: State, goals: seq<Goal>, end: Goal, outer: seq<Value>, c: Config,
    rt: ResultType, m: Mach, fuel: nat, c2: Config)
    requires Typed(x, st, outer, c) && EnterLoop(ContextOf(x), st, rt) == Result.Ok(st1) && |goals| == |st.frames|
    requires Sims(x, st1, st2, goals + [end], outer + c.stack, m, fuel, Branch(0, c2))
    ensures LocalsOk(x, c2.locals) && Typed(x, st, outer, c2.(stack := c.stack))
  {
    hide Typed, Follow, BranchStep, EnterLoop, FrameWords, StackOk, Live;
    LoopBack(x, st, st1, goals, end, outer, c, rt, c2);
  }

  // ----- ifs -----

  lemma {:induction false} IfSims(
    x: Site, st: State, code: Code, outer: seq<Value>, c: Config, goals: seq<Goal>, lo: nat, fuel: nat)
    requires SiteOk(x) && SiteLoaded(x) && ChainsOk(st, lo) && Typed(x, st, outer, c) && code.If?
    requires Compile(ContextOf(x), st, code).Ok?
    requires Agree(x.code, Compile(ContextOf(x), st, code).value, goals)
    requires Compile(ContextOf(x), st, code).value.highwater <= x.f.usage
    requires Points(ContextOf(x), st, code) <= x.Here()
    ensures LocalsOk(x, c.locals)
    ensures Sims(x, st, Compile(ContextOf(x), st, code).value, goals, outer, MachOf(x, st, outer, c), fuel,
                 Exec(x.s, x.module_, code, c, Base(x, outer), fuel))
    decreases fuel, 1, code, 1
  {
    hide SiteOk, SiteLoaded, ChainsOk, Typed, Agree, Sims, FrameWords, ExitBlock, Opened, Entered, Flat;
    hide Scope, SameShape, EnterIf;
    hide Follow, MachAt;
    var cx := ContextOf(x);
    TypedStack(x, st, outer, c);
    SiteHeader(x);
    EnterIfOpens(cx, st, code.rt, lo);
    EnterIfOk(cx, st, code.rt);
    var st1 := EnterIf(cx, st, code.rt).value;
    IfCondition(x, st, st1, code.rt, lo, outer, c);
    BodyFacts(x, st, st1, code.thn, code.next, goals, lo, outer, c, Pop(c), code.rt);
    var st2 := Compile(cx, st1, code.thn).value;
    var st3 := ExitBlock(cx, st2).value;
    IfBodySims(x, st, code, st1, st2, st3, outer, c, goals, lo, fuel);
    FlatConcat(outer, Pop(c).stack);
    NextSims(x, st, st3, code.next, outer, goals, lo, MachOf(x, st, outer, c), fuel,
        IfOutcome(x, code, outer, c, fuel));
  }

  /** The outcome of the if itself. */
  function IfOutcome(x: Site, code: Code, outer: seq<Value>, c: Config, fuel: nat): Outcome
    requires code.If? && HasI32(c)
  {
    var c1 := Pop(c);
    if Last(c).word == 0 then Normal(c1)
    else
      Leave(Exec(x.s, x.module_, code.thn, Enter(c1), Base(x, outer) + StackWords(c1), fuel), c1.stack,
          ResultCount(code.rt))
  }

  lemma {:induction false} IfBodySims(
    x: Site, st: State, code: Code, st1: State, st2: State, st3: State,
    outer: seq<Value>, c: Config, goals: seq<Goal>, lo: nat, fuel: nat)
    requires SiteOk(x) && SiteLoaded(x) && ChainsOk(st, lo) && Typed(x, st, outer, c) && code.If? && HasI32(c)
    requires EnterIf(ContextOf(x), st, code.rt) == Result.Ok(st1)
    requires Compile(ContextOf(x), st1, code.thn) == Result.Ok(st2)
    requires |goals| == |st.frames| && ChainsOk(st1, lo)
    requires Agree(x.code, st1, goals + [Goal(|st2.code|, |st2.code|)])
    requires Agree(x.code, st2, goals + [Goal(|st2.code|, |st2.code|)])
    requires st2.highwater <= x.f.usage && Scope(x, st, st1, st2, st3, outer, c, Pop(c), code.rt)
    requires Marked(x, st) && Points(ContextOf(x), st1, code.thn) <= x.Here()
    ensures LocalsOk(x, c.locals)
    ensures Sims(x, st, st3, goals, outer, MachOf(x, st, outer, c), fuel, IfOutcome(x, code, outer, c, fuel))
    decreases fuel, 1, code, 0
  {
    hide SiteOk, SiteLoaded, ChainsOk, Typed, Agree, Sims, FrameWords, ExitBlock, Entered, Flat, SameShape;
    hide EnterIf, Exec, Compile;
    hide Follow, MachAt, StackOk, StackStep;
    TypedStack(x, st, outer, c);
    EnterIfShape(x, st, st1, code.rt, lo);
    var c1 := Pop(c);
    var end := Goal(|st2.code|, |st2.code|);
    IfStep(x, st, st1, goals, end, code.rt, lo, outer, c);
    var m := MachOf(x, st, outer, c);
    if Last(c).word == 0 {
      SkippedIf(x, st, st1, st2, st3, goals, outer, c, code.rt, m, fuel);
    } else {
      EnterTyped(x, st, st1, outer, c, c1, code.rt);
      CodeSims(x, st1, code.thn, outer + c1.stack, Enter(c1), goals + [end], lo, fuel);
      var o := Exec(x.s, x.module_, code.thn, Enter(c1), Base(x, outer + c1.stack), fuel);
      SameShapeRefl(st1);
      SimsAfter(x, st1, st1, st2, goals + [end], outer + c1.stack, m, MachOf(x, st1, outer + c1.stack, Enter(c1)),
          1, fuel, fuel, o);
      LeaveSims(x, st, st1, st2, st3, goals, end, outer, c, c1, code.rt, m, fuel, o);
    }
  }

  lemma {:induction false} IfElseSims(
    x: Site, st: State, code: Code, outer: seq<Value>, c: Config, goals: seq<Goal>, lo: nat, fuel: nat)
    requires SiteOk(x) && SiteLoaded(x) && ChainsOk(st, lo) && Typed(x, st, outer, c) && code.IfElse?
    requires Compile(ContextOf(x), st, code).Ok?
    requires Agree(x.code, Compile(ContextOf(x), st, code).value, goals)
    requires Compile(ContextOf(x), st, code).value.highwater <= x.f.usage
    requires Points(ContextOf(x), st, code) <= x.Here()
    ensures LocalsOk(x, c.locals)
    ensures Sims(x, st, Compile(ContextOf(x), st, code).value, goals, outer, MachOf(x, st, outer, c), fuel,
                 Exec(x.s, x.module_, code, c, Base(x, outer), fuel))
    decreases fuel, 1, code, 1
  {
    hide SiteOk, SiteLoaded, ChainsOk, Typed, Agree, Sims, FrameWords, ExitBlock, Flat, SameShape, EnterIf, Else;
    hide Follow, MachAt, ArmTypes, ArmGoals, Exec, Compile, Points;
    var cx := ContextOf(x);
    CompileElse(cx, st, code);
    TypedStack(x, st, outer, c);
    var st1 := EnterIf(cx, st, code.rt).value;
    IfCondition(x, st, st1, code.rt, lo, outer, c);
    EnterIfShape(x, st, st1, code.rt, lo);
    var st2 := Compile(cx, st1, code.thn).value;
    var st3 := Else(cx, st2).value;
    var st4 := Compile(cx, st3, code.els).value;
    var st5 := ExitBlock(cx, st4).value;
    ArmChains(x, st, code, st1, st2, st3, st4, st5, Compile(cx, st5, code.next).value, goals, lo);
    ArmsTyped(x, st, code, st1, st2, st3, st4, st5, Compile(cx, st5, code.next).value, outer, c);
    ArmsSims(x, st, code, st1, st2, st3, st4, st5, outer, c, goals, lo, fuel);
    ExecElse(x, code, outer, c, fuel);
    NextSims(x, st, st5, code.next, outer, goals, lo, MachOf(x, st, outer, c), fuel,
        ElseOutcome(x, code, outer, c, fuel));
  }

  /** The outcome of an if with an else part. */
  function ElseOutcome(x: Site, code: Code, outer: seq<Value>, c: Config, fuel: nat): Outcome
    requires code.IfElse? && HasI32(c)
  {
    var arm := if Last(c).word != 0 then code.thn else code.els;
    Leave(Exec(x.s, x.module_, arm, Enter(Pop(c)), Base(x, outer + Pop(c).stack), fuel), Pop(c).stack,
        ResultCount(code.rt))
  }

  lemma ExecElse(x: Site, code: Code, outer: seq<Value>, c: Config, fuel: nat)
    requires code.IfElse? && HasI32(c)
    ensures var o := ElseOutcome(x, code, outer, c, fuel);
            Exec(x.s, x.module_, code, c, Base(x, outer), fuel)
            == if o.Normal? then Exec(x.s, x.module_, code.next, o.c, Base(x, outer), fuel) else o
  {
    hide Flat;
    FlatConcat(outer, Pop(c).stack);
  }

  lemma CompileElse(c: Context, st: State, code: Code)
    requires code.IfElse? && Compile(c, st, code).Ok?
    ensures EnterIf(c, st, code.rt).Ok? && Compile(c, EnterIf(c, st, code.rt).value, code.thn).Ok?
    ensures var st1 := EnterIf(c, st, code.rt).value;
            var st2 := Compile(c, st1, code.thn).value;
            && Else(c, st2).Ok? && Compile(c, Else(c, st2).value, code.els).Ok?
            && var st3 := Else(c, st2).value;
               var st4 := Compile(c, st3, code.els).value;
               && ExitBlock(c, st4).Ok? && Compile(c, st, code) == Compile(c, ExitBlock(c, st4).value, code.next)
               && Points(c, st, code) ==
                  {Point(st), Point(st2)} + Points(c, st1, code.thn)
                  + (Points(c, st3, code.els) + Points(c, ExitBlock(c, st4).value, code.next))
  {
    hide EnterIf, Else, ExitBlock, Point;
  }

  lemma {:induction false} ArmsSims(
    x: Site, st: State, code: Code, st1: State, st2: State, st3: State, st4: State, st5: State,
    outer: seq<Value>, c: Config, goals: seq<Goal>, lo: nat, fuel: nat)
    requires SiteOk(x) && SiteLoaded(x) && ChainsOk(st, lo) && Typed(x, st, outer, c) && code.IfElse?
    requires EnterIf(ContextOf(x), st, code.rt) == Result.Ok(st1)
    requires Compile(ContextOf(x), st1, code.thn) == Result.Ok(st2)
    requires Else(ContextOf(x), st2) == Result.Ok(st3) && Compile(ContextOf(x), st3, code.els) == Result.Ok(st4)
    requires |goals| == |st.frames| && ArmGoals(x, st1, st2, st3, st4, goals)
    requires ArmTypes(x, st, st1, st2, st3, st4, st5, outer, c, code.rt)
    requires ChainsOk(st1, lo) && ChainsOk(st2, lo) && ChainsOk(st3, lo)
    requires SameShape(st1, st2) && SameShape(st, AfterThen(st, st2)) && |st3.code| == |st2.code| + 3
    requires Marked(x, st) && Marked(x, st2) && Points(ContextOf(x), st1, code.thn) <= x.Here()
    requires Points(ContextOf(x), st3, code.els) <= x.Here()
    ensures HasI32(c) && LocalsOk(x, c.locals)
    ensures Sims(x, st, st5, goals, outer, MachOf(x, st, outer, c), fuel, ElseOutcome(x, code, outer, c, fuel))
    decreases fuel, 1, code, 0
  {
    hide SiteOk, SiteLoaded, ChainsOk, Typed, Agree, Sims, FrameWords, Flat, SameShape, EnterIf, Else, Exec;
    hide Compile, Scope;
    hide Follow, MachAt, Entered, StackOk, StackStep, ElseBranch;
    TypedStack(x, st, outer, c);
    IfCondition(x, st, st1, code.rt, lo, outer, c);
    EnterIfShape(x, st, st1, code.rt, lo);
    ElseFacts(x, st, st1, st2, code.rt);
    var (g, end) := (ThenGoal(st2, st4), Goal(|st4.code|, |st4.code|));
    IfStep(x, st, st1, goals, g, code.rt, lo, outer, c);
    var c1 := Pop(c);
    var m := MachOf(x, st, outer, c);
    if Last(c).word != 0 {
      EnterTyped(x, st, st1, outer, c, c1, code.rt);
      CodeSims(x, st1, code.thn, outer + c1.stack, Enter(c1), goals + [g], lo, fuel);
      var o := Exec(x.s, x.module_, code.thn, Enter(c1), Base(x, outer + c1.stack), fuel);
      SameShapeRefl(st1);
      SimsAfter(x, st1, st1, st2, goals + [g], outer + c1.stack, m, MachOf(x, st1, outer + c1.stack, Enter(c1)),
          1, fuel, fuel, o);
      ThenLeaves(x, st, st1, st2, st3, st4, st5, goals, lo, outer, c, code.rt, m, fuel, o);
    } else {
      ElseTyped(x, st, st1, st2, st3, st4, st5, outer, c, code.rt);
      CodeSims(x, st3, code.els, outer + c1.stack, Enter(c1), goals + [end], lo, fuel);
      var o := Exec(x.s, x.module_, code.els, Enter(c1), Base(x, outer + c1.stack), fuel);
      ElseLeaves(x, st, st1, st2, st3, st4, st5, goals, outer, c, code.rt, m,
                 MachOf(x, st3, outer + c1.stack, Enter(c1)), fuel, o);
    }
  }

  lemma ElseFacts(x: Site, st: State, st1: State, st2: State, rt: ResultType)
    requires StackOk(st) && Entered(st, st1, rt) && StackOk(st2) && StackStep(st1, st2) && Else(ContextOf(x), st2).Ok?
    ensures Else(ContextOf(x), st2).value.values == st1.values
    ensures Innermost(Else(ContextOf(x), st2).value).kind.Block?
  {
    ElseSame(ContextOf(x), st, st1, st2, rt);
  }

  lemma ElseTyped(
    x: Site, st: State, st1: State, st2: State, st3: State, st4: State, st5: State, outer: seq<Value>, c: Config,
    rt: ResultType)
    requires ArmTypes(x, st, st1, st2, st3, st4, st5, outer, c, rt)
    ensures Typed(x, st3, outer + Pop(c).stack, Enter(Pop(c)))
    ensures (outer + Pop(c).stack) + Enter(Pop(c)).stack == outer + Pop(c).stack
  {
    hide Typed, Entered, StackOk, StackStep, Flat, ExitBlock, Knowns;
    EnterTyped(x, AfterThen(st, st2), st3, outer, c, Pop(c), rt);
  }
}
