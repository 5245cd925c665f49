/** An embedding's loop (crates/spacewasi/src/main.rs): invoke a function, run it in portions, answer
    its pauses, until it has finished or trapped. Here the engine, the code store, the compiler's
    guarantee and the structured semantics meet. */
module Driver {
  import opened Values
  import opened Ir
  import opened Wasm
  import opened Machine
  import opened Activations
  import opened Runs
  import opened CodeStore
  import opened Engine
  import Preservation
  import Safety
  import Text

  /** The state `now` is the invocation's after `a` instructions. */
  ghost predicate Reached(s: Store, code: seq<Word>, target: nat, index: nat, params: seq<Value>, a: nat, now: Mach) {
    Invoke(s, target, index, params).Next? && Run(s, code, Invoke(s, target, index, params).m, a) == Next(now)
  }

  /** What the semantics says with the given fuel is what the engine ended with. */
  predicate Ended(
    s: Store, target: nat, index: nat, params: seq<Value>, fuel: nat, r: RunResult, result: Option<seq<U32>>,
    trace: seq<HostCall>)
  {
    var o := Safety.Meaning(s, target, index, params, fuel);
    match r
    case Finished => o.Normal? && result == Some(Flat(o.c.stack)) && trace == o.c.trace
    case Trap(reason) => o == Outcome.Trap(reason, trace)
    case _ => false
  }

  /** Before a portion. */
  lemma PortionStarts(
    s: Store, code: seq<Word>, options: Text.Options, target: nat, index: nat, params: seq<Value>, a: nat,
    m: Mach, n: nat)
    requires Safety.Invocable(s, code, options, target, index, params) && Reached(s, code, target, index, params, a, m)
    ensures |code| < 0x8000_0000 && HostsTyped(s) && 0 <= m.pc < |code| && !RunToPause(s, code, m, n).Unsafe?
  {
    hide HostsTyped, Machine.Invoke, Machine.Run, RunToPause;
    PortionsSafe(s, code, options, target, index, params, a, m, n);
    PortionsSafe(s, code, options, target, index, params, a, m, 1);
    OnePortion(s, code, m);
  }

  lemma OnePortion(s: Store, code: seq<Word>, m: Mach)
    requires !RunToPause(s, code, m, 1).Unsafe?
    ensures 0 <= m.pc < |code|
  {
    hide StepInstr, Decode;
    assert !StepOnce(s, code, m).Unsafe?;
    DecodeInside(code, m.pc);
  }

  lemma DecodeInside(code: seq<Word>, pc: int)
    ensures pc >= |code| ==> pc < 0 || Decode(code, pc).OffEnd?
  {
  }

  /** After a portion that used up its fuel. */
  lemma PortionUsed(
    s: Store, code: seq<Word>, options: Text.Options, target: nat, index: nat, params: seq<Value>, a: nat,
    m: Mach, n: nat, m': Mach)
    requires Safety.Invocable(s, code, options, target, index, params) && Reached(s, code, target, index, params, a, m)
    requires RunToPause(s, code, m, n) == Next(m')
    ensures Reached(s, code, target, index, params, a + n, m')
  {
    hide HostsTyped, Machine.Invoke, Machine.Run, RunToPause;
    PortionsSafe(s, code, options, target, index, params, a, m, n);
  }

  /** After a portion that paused, with the host's value. */
  lemma PortionPaused(
    s: Store, code: seq<Word>, options: Text.Options, target: nat, index: nat, params: seq<Value>, a: nat,
    m: Mach, n: nat, p: Step)
    returns (b: nat)
    requires Safety.Invocable(s, code, options, target, index, params) && Reached(s, code, target, index, params, a, m)
    requires RunToPause(s, code, m, n) == p && p.Paused?
    ensures s.reply(p.m.trace).Pause?
    ensures var r := Resume(p.m, p.want, s.reply(p.m.trace).result);
            r.Next? && b > a && Reached(s, code, target, index, params, b, r.m) && FramesOk(s, r.m)
  {
    hide HostsTyped, Machine.Invoke, Machine.Run, RunToPause, FramesOk, Resume;
    PortionsSafe(s, code, options, target, index, params, a, m, n);
    var m0 := Machine.Invoke(s, target, index, params).m;
    b :| b > a && Run(s, code, m0, b) == Resume(p.m, p.want, s.reply(p.m.trace).result);
    InvokedFrames(s, code, options, target, index, params);
    RunFrames(s, code, m0, b);
  }

  lemma InvokedFrames(s: Store, code: seq<Word>, options: Text.Options, target: nat, index: nat, params: seq<Value>)
    requires Safety.Invocable(s, code, options, target, index, params) && Invoke(s, target, index, params).Next?
    ensures FramesOk(s, Invoke(s, target, index, params).m)
  {
    hide HostsTyped, FramesOk;
    InvokeFrames(s, target, index, params);
  }

  /** After the last portion. */
  lemma PortionEnds(
    s: Store, code: seq<Word>, options: Text.Options, target: nat, index: nat, params: seq<Value>, a: nat,
    m: Mach, n: nat)
    requires Safety.Invocable(s, code, options, target, index, params) && Reached(s, code, target, index, params, a, m)
    ensures var (r, o) := (RunToPause(s, code, m, n), Safety.Meaning(s, target, index, params, a + n + 1));
            && (r.Finished? ==> o.Normal? && r.result == Flat(o.c.stack) && r.trace == o.c.trace)
            && (r.Trapped? ==> o == Outcome.Trap(r.reason, r.trace))
  {
    hide HostsTyped, Machine.Invoke, Machine.Run, RunToPause, Safety.Meaning, Flat;
    var r := RunToPause(s, code, m, n);
    if r.Finished? || r.Trapped? {
      UnpausedRun(s, code, m, n);
      RunSplit(s, code, Machine.Invoke(s, target, index, params).m, a, n);
      Safety.Agreement(s, code, options, target, index, params, a + n);
    }
  }

  /** An invocation of loaded code on an idle engine, in at most `rounds` portions. It is refused only
      for want of stack, and then the semantics overflows the stack too. When it ends, the semantics
      comes to the same results or trap after the same host calls, and the engine is idle again. Until
      then each portion makes progress along the one run that the semantics describes. */
  method Drive(
    e: Engine, code: CodeBuilder, ghost options: Text.Options, target: nat, index: nat, params: seq<Value>,
    portion: nat, rounds: nat)
    returns (r: Result<RunResult, InvokeError>, ghost steps: nat)
    requires e.Sized() && e.Idle() && !e.jumped && e.owed.None? && code.Valid() && portion > 0
    requires Safety.Invocable(e.s, code.Contents(), options, target, index, params)
    modifies e, e.stack.words
    ensures e.Sized() && !e.jumped
    ensures r.Err? ==>
              && r.error == InvokeError.StackOverflow && e.Idle()
              && forall fuel :: Safety.Meaning(e.s, target, index, params, fuel)
                  == Outcome.Trap(TrapReason.StackOverflow, [])
    ensures r.Ok? && !r.value.OutOfFuel? ==>
              e.Idle() && e.owed.None? && Ended(e.s, target, index, params, steps + 1, r.value, e.result, e.trace)
    ensures r.Ok? && r.value.OutOfFuel? ==>
              && e.Running() && e.owed.None? && steps >= rounds
              && Reached(e.s, old(code.Contents()), target, index, params, steps, e.View())
  {
    hide HostsTyped, Machine.Invoke, Machine.Run, RunToPause, FramesOk, Safety.Meaning, Resume, Flat;
    hide Text.OptionsOk, Preservation.Located;
    ghost var (s, contents) := (e.s, code.Contents());
    steps := 0;
    Invocation(s, contents, options, target, index, params);
    var refused := e.Invoke(target, index, params);
    if refused.Some? {
      Overflows(s, contents, options, target, index, params);
      return Result.Err(refused.value), 0;
    }
    Starts(s, contents, target, index, params);
    for i := 0 to rounds
      invariant e.Running() && e.owed.None? && code.Valid() && code.Contents() == contents && steps >= i
      invariant Reached(s, contents, target, index, params, steps, e.View())
    {
      var now;
      now, steps := Portion(e, code, options, target, index, params, portion, steps);
      if !now.OutOfFuel? { return Result.Ok(now), steps; }
    }
    r := Result.Ok(RunResult.OutOfFuel);
  }

  /** One portion, and the host's answer if it ends in a pause. */
  method Portion(
    e: Engine, code: CodeBuilder, ghost options: Text.Options, target: nat, index: nat, params: seq<Value>,
    portion: nat, ghost steps: nat)
    returns (r: RunResult, ghost steps': nat)
    requires e.Running() && e.owed.None? && code.Valid() && portion > 0
    requires Safety.Invocable(e.s, code.Contents(), options, target, index, params)
    requires Reached(e.s, code.Contents(), target, index, params, steps, e.View())
    modifies e, e.stack.words
    ensures code.Valid() && code.Contents() == old(code.Contents())
    ensures e.Sized() && !e.jumped && !r.Pause?
    ensures !r.OutOfFuel? ==>
              e.Idle() && e.owed.None? && Ended(e.s, target, index, params, steps' + 1, r, e.result, e.trace)
    ensures r.OutOfFuel? ==>
              e.Running() && e.owed.None? && steps' > steps
                  && Reached(e.s, code.Contents(), target, index, params, steps', e.View())
  {
    hide HostsTyped, Machine.Invoke, Machine.Run, RunToPause, FramesOk, Safety.Meaning, Resume, Flat;
    hide Text.OptionsOk, Safety.Invocable;
    hide Reached;
    ghost var (s, contents, m) := (e.s, code.Contents(), e.View());
    PortionStarts(s, contents, options, target, index, params, steps, m, portion);
    PortionEnds(s, contents, options, target, index, params, steps, m, portion);
    ghost var p := RunToPause(s, contents, m, portion);
    r := e.Run(code, portion);
    steps' := steps + portion;
    if r.OutOfFuel? {
      PortionUsed(s, contents, options, target, index, params, steps, m, portion, e.View());
    } else if r.Pause? {
      steps' := PortionPaused(s, contents, options, target, index, params, steps, m, portion, p);
      ResumePushes(s, e.View(), p.want, s.reply(e.trace).result);
      var failed := e.ResumeWith(e.s.reply(e.trace).result);
      r := RunResult.OutOfFuel;
    }
  }

  lemma Invocation(s: Store, code: seq<Word>, options: Text.Options, target: nat, index: nat, params: seq<Value>)
    requires Safety.Invocable(s, code, options, target, index, params)
    ensures |code| < 0x8000_0000 && target < |s.modules| <= 0x100 && index < |s.modules[target].functions|
    ensures s.modules[target].functions[index].ParamWords() <= 0xFF
    ensures InvokeFailure(s, true, target, index, params) in {None, Some(InvokeError.StackOverflow)}
  {
    hide HostsTyped, Text.OptionsOk;
    Safety.EntryOk(s, code, options, target, index, params);
    assert |TypesOf(params)| == |params|;
  }

  lemma Overflows(s: Store, code: seq<Word>, options: Text.Options, target: nat, index: nat, params: seq<Value>)
    requires Safety.Invocable(s, code, options, target, index, params)
    requires InvokeFailure(s, true, target, index, params) == Some(InvokeError.StackOverflow)
    ensures forall fuel :: Safety.Meaning(s, target, index, params, fuel) == Outcome.Trap(TrapReason.StackOverflow, [])
  {
    hide HostsTyped, Text.OptionsOk, Safety.Meaning;
    forall fuel: nat ensures Safety.Meaning(s, target, index, params, fuel)
        == Outcome.Trap(TrapReason.StackOverflow, []) {
      Safety.MeaningOf(s, code, options, target, index, params, fuel);
    }
  }

  lemma Starts(s: Store, code: seq<Word>, target: nat, index: nat, params: seq<Value>)
    requires Invoke(s, target, index, params).Next?
    ensures Reached(s, code, target, index, params, 0, Invoke(s, target, index, params).m)
  {
    hide Machine.Invoke;
  }
}
