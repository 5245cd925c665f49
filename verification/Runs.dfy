/** Runs in portions (src/interpreter.rs, `run` and `resume`): a run stops at a pause, and stopping,
    pausing and resuming do not change what is computed. */
module Runs {
  import opened Values
  import opened Ir
  import opened Wasm
  import opened Machine
  import opened Activations
  import opened Preservation
  import Safety
  import Text

  /** `run`: up to `n` instructions, stopping at a pause. */
  function RunToPause(s: Store, code: seq<Word>, m: Mach, n: nat): Step
    decreases n
  {
    if n == 0 then Next(m)
    else
      var r := StepOnce(s, code, m);
      if r.Next? then RunToPause(s, code, r.m, n - 1) else r
  }

  /** States reached one by one, by an instruction each. */
  predicate OneByOne(s: Store, code: seq<Word>, ms: seq<Mach>) {
    ms != [] && forall i :: 0 <= i < |ms| - 1 ==> StepOnce(s, code, ms[i]) == Next(ms[i + 1])
  }

  /** Fuel counts instructions: a run that is out of fuel has made exactly `n`, and one that ends otherwise
      ends with the instruction behind fewer than `n`. */
  lemma {:induction false} FuelCounts(s: Store, code: seq<Word>, m: Mach, n: nat) returns (ms: seq<Mach>)
    ensures OneByOne(s, code, ms) && ms[0] == m
    ensures var r := RunToPause(s, code, m, n);
            var last := ms[|ms| - 1];
            if r.Next? then |ms| - 1 == n && r.m == last else |ms| - 1 < n && r == StepOnce(s, code, last)
    decreases n
  {
    hide StepOnce;
    ms := [m];
    if n > 0 && StepOnce(s, code, m).Next? {
      var rest := FuelCounts(s, code, StepOnce(s, code, m).m, n - 1);
      ms := [m] + rest;
    }
  }

  /** Running out of fuel and running on is running with all the fuel at once. */
  lemma {:induction false} PortionsJoin(s: Store, code: seq<Word>, m: Mach, a: nat, b: nat)
    ensures RunToPause(s, code, m, a + b) ==
            (var r := RunToPause(s, code, m, a); if r.Next? then RunToPause(s, code, r.m, b) else r)
    decreases a
  {
    hide StepOnce;
    if a > 0 {
      var r := StepOnce(s, code, m);
      if r.Next? { PortionsJoin(s, code, r.m, a - 1, b); }
    }
  }

  /** A run that does not pause is the run in which pauses are resumed. */
  lemma {:induction false} UnpausedRun(s: Store, code: seq<Word>, m: Mach, n: nat)
    requires !RunToPause(s, code, m, n).Paused?
    ensures Run(s, code, m, n) == RunToPause(s, code, m, n)
    decreases n
  {
    hide StepOnce;
    if n > 0 {
      var r := StepOnce(s, code, m);
      if r.Next? { UnpausedRun(s, code, r.m, n - 1); }
    }
  }

  /** A run that pauses, a resumption with the host's value, and the rest of the fuel make the run in
      which pauses are resumed; `k` instructions were executed up to and including the host call. */
  lemma {:induction false} PausedRun(s: Store, code: seq<Word>, m: Mach, n: nat) returns (k: nat)
    requires RunToPause(s, code, m, n).Paused?
    requires s.reply(RunToPause(s, code, m, n).m.trace).Pause?
    ensures k < n
    ensures var p := RunToPause(s, code, m, n);
            var r := Resume(p.m, p.want, s.reply(p.m.trace).result);
            && Run(s, code, m, k + 1) == r
            && Run(s, code, m, n) == if r.Next? then Run(s, code, r.m, n - k - 1) else r
    decreases n
  {
    hide StepOnce, Resume;
    var r := StepOnce(s, code, m);
    if r.Next? {
      k := PausedRun(s, code, r.m, n - 1);
      k := k + 1;
    } else {
      k := 0;
    }
  }

  /** A resumption with a value of another type changes nothing, and the right value still can follow. */
  lemma MismatchKeeps(m: Mach, want: ResultType, v: Option<Value>)
    ensures (if v.None? then None else Some(v.value.Type())) != want <==> Resume(m, want, v) == Paused(m, want)
  {
  }

  // ----- pausing or answering at once -----

  function Prompt(r: HostReply): HostReply {
    match r
    case Pause(v) => Continue(v)
    case _ => r
  }

  /** The store whose hosts answer at once where those of `s` pause. */
  function Prompted(s: Store): Store {
    s.(reply := (t: seq<HostCall>) => Prompt(s.reply(t)))
  }

  lemma PromptHost(s: Store, h: nat, x: nat, m: Mach, next: int)
    requires HostsTyped(s)
    ensures var (r, r') := (StepHost(s, h, x, m, next), StepHost(Prompted(s), h, x, m, next));
            !r'.Paused? && (if r.Paused? && s.reply(r.m.trace).Pause?
                            then Resume(r.m, r.want, s.reply(r.m.trace).result) == r' else r == r')
            && (r.Paused? ==> s.reply(r.m.trace).Pause?)
  {
    hide ReadValues, CanPop;
    if h < |s.hosts| && x < |s.hosts[h]| {
      var sig := s.hosts[h][x];
      var n := WordLen(sig.params);
      CanPopFits(m, n);
      if CanPop(m, n) {
        var trace := m.trace + [HostCall(h, x, ReadValues(sig.params, m.live[|m.live| - n..]))];
        assert HostTyped(s, trace);
        assert trace[|trace| - 1].module_ == h && trace[|trace| - 1].index == x;
        assert Prompted(s).reply(trace) == Prompt(s.reply(trace));
      }
    }
  }

  lemma PromptInstr(s: Store, i: Instr, next: int, m: Mach)
    requires !i.CallHost?
    ensures StepInstr(Prompted(s), i, next, m) == StepInstr(s, i, next, m)
  {
    hide NumWords, CanAccess, CanPop, EnterCall, Replace, HeaderDelta, HeaderLength, HeaderParams, ModuleBack;
  }

  lemma PromptAdvance(s: Store, code: seq<Word>, m: Mach)
    requires HostsTyped(s)
    ensures Advance(Prompted(s), code, m) == Advance(s, code, m)
  {
    hide Decode, Resume, StepHost, HostsTyped;
    if m.pc >= 0 && Decode(code, m.pc).Instr? {
      var d := Decode(code, m.pc);
      if d.instr.CallHost? {
        PromptHost(s, d.instr.module_, d.instr.index, m, d.next);
      } else {
        PromptInstr(s, d.instr, d.next, m);
        NotPaused(s, d.instr, d.next, m);
      }
    }
  }

  /** Pause transparency: replacing every pause by an immediate answer changes no run. */
  lemma {:induction false} PauseIsContinue(s: Store, code: seq<Word>, m: Mach, n: nat)
    requires HostsTyped(s)
    ensures Run(Prompted(s), code, m, n) == Run(s, code, m, n)
    decreases n
  {
    hide Advance, HostsTyped, Prompted;
    if n > 0 {
      PromptAdvance(s, code, m);
      var r := Advance(s, code, m);
      if r.Next? { PauseIsContinue(s, code, r.m, n - 1); }
    }
  }

  // ----- embeddings -----

  lemma OnlyHostsPause(s: Store, code: seq<Word>, m: Mach)
    requires HostsTyped(s) && StepOnce(s, code, m).Paused?
    ensures s.reply(StepOnce(s, code, m).m.trace).Pause?
  {
    hide Decode, StepHost, HostsTyped;
    var d := Decode(code, m.pc);
    if d.instr.CallHost? {
      PromptHost(s, d.instr.module_, d.instr.index, m, d.next);
    } else {
      NotPaused(s, d.instr, d.next, m);
    }
  }

  lemma {:induction false} OnlyHostsPauseRuns(s: Store, code: seq<Word>, m: Mach, n: nat)
    requires HostsTyped(s) && RunToPause(s, code, m, n).Paused?
    ensures s.reply(RunToPause(s, code, m, n).m.trace).Pause?
    decreases n
  {
    hide StepOnce, HostsTyped;
    var r := StepOnce(s, code, m);
    if r.Next? {
      OnlyHostsPauseRuns(s, code, r.m, n - 1);
    } else {
      OnlyHostsPause(s, code, m);
    }
  }

  /** An embedding that runs an invocation of loaded code in portions of any size, resuming each pause
      with the host's value, only meets states of the one uninterrupted run: no portion is unsafe, and
      every resumption succeeds. `m` is the state after `a` instructions. */
  lemma PortionsSafe(
    s: Store, code: seq<Word>, options: Text.Options, module_: nat, index: nat, args: seq<Value>, a: nat,
    m: Mach, n: nat)
    requires Safety.Invocable(s, code, options, module_, index, args) && Invoke(s, module_, index, args).Next?
    requires Run(s, code, Invoke(s, module_, index, args).m, a) == Next(m)
    ensures var m0 := Invoke(s, module_, index, args).m;
            var r := RunToPause(s, code, m, n);
            && !r.Unsafe?
            && (r.Next? ==> Run(s, code, m0, a + n) == r)
            && (r.Paused? ==>
                  && s.reply(r.m.trace).Pause?
                  && Resume(r.m, r.want, s.reply(r.m.trace).result).Next?
                  && exists b :: b > a && Run(s, code, m0, b) == Resume(r.m, r.want, s.reply(r.m.trace).result))
  {
    hide StepOnce, Resume, HostsTyped, Invoke, Run, Safety.ProgramPoints, Located;
    var m0 := Invoke(s, module_, index, args).m;
    var r := RunToPause(s, code, m, n);
    RunSplit(s, code, m0, a, n);
    Safety.NeverUnsafe(s, code, options, module_, index, args, a + n);
    if r.Paused? {
      InvocableHosts(s, code, options, module_, index, args);
      OnlyHostsPauseRuns(s, code, m, n);
      var k := PausedRun(s, code, m, n);
      RunSplit(s, code, m0, a, k + 1);
      Safety.NeverUnsafe(s, code, options, module_, index, args, a + (k + 1));
      ResumeKinds(r.m, r.want, s.reply(r.m.trace).result);
      assert a + (k + 1) > a;
    } else {
      UnpausedRun(s, code, m, n);
    }
  }

  lemma InvocableHosts(s: Store, code: seq<Word>, options: Text.Options, module_: nat, index: nat, args: seq<Value>)
    requires Safety.Invocable(s, code, options, module_, index, args)
    ensures HostsTyped(s)
  {
    hide HostsTyped;
  }

  lemma ResumeKinds(m: Mach, want: ResultType, v: Option<Value>)
    ensures var r := Resume(m, want, v); r.Next? || r.Paused? || r.Unsafe?
  {
  }
}
